/** The booking service: create, update and delete of bookings, in sequenced
    steps over the tables, each step able to fail. */
module BookingService {
  import opened Js
  import opened Store
  import opened Validation
  import opened Financials
  import opened Availability
  import opened BedManagement
  import opened InsertBookings

  const NotAvailable := Message("Beds not available for selected dates.")

  /** Which of the queries and writes of a create fail. */
  datatype CreateFaults = CreateFaults(
    bedsQuery: bool, overlapQuery: bool, insert: bool, roomInsert: bool,
    assignBedsQuery: bool, assignOverlapQuery: bool, assignInsert: bool)
  {
    predicate None()
    {
      !bedsQuery && !overlapQuery && !insert && !roomInsert && !assignBedsQuery && !assignOverlapQuery && !assignInsert
    }
  }

  /** The properties `createBookingService` destructures out of the request;
      the rest is spread into the row. */
  const CreateNamed: set<string> :=
    {"base_amount", "payment_received", "ota_name", "check_in", "check_out", "room_id", "beds_required"}

  /** The destructured properties the row lists again by name. */
  const CreateListed: set<string> := {"base_amount", "payment_received", "ota_name", "check_in", "check_out"}

  /** The financial fields of a create: the calculators applied to the
      request's channel and amounts, as JavaScript numbers. */
  function CreateFinancials(data: Record): Record
  {
    FinancialFields(Get(data, "ota_name"), ToNumber(Get(data, "base_amount")), ToNumber(Get(data, "payment_received")))
  }

  /** The object literal inserted by `createBookingService`: `...rest`, the
      amounts, the five financial fields `fin`, the channel and the dates. */
  function CreateRow(data: Record, fin: Record): Record
  {
    var rest := map k | k in data && k !in CreateNamed :: data[k];
    var listed := map k | k in CreateListed :: Get(data, k);
    Spread(Spread(rest, listed), fin)
  }

  /** The row of a create, with the financial fields of its request. */
  function CreateRecord(data: Record): Record
  {
    CreateRow(data, CreateFinancials(data))
  }

  /** Whatever the five financial fields hold, the literal takes them, the
      amounts, channel and dates from the request, every other property of the
      request but `room_id` and `beds_required` unchanged, and nothing else. */
  lemma CreateRowFields(data: Record, fin: Record)
    requires forall k :: k in fin <==> k in FinancialKeys
    ensures var rec := CreateRow(data, fin);
      && (forall k :: k in FinancialKeys ==> Get(rec, k) == fin[k])
      && (forall k :: k in CreateListed ==> Get(rec, k) == Get(data, k))
      && "room_id" !in rec && "beds_required" !in rec
      && (forall k :: k in data && k !in CreateNamed && k !in FinancialKeys ==> Get(rec, k) == data[k])
      && (forall k :: k in rec ==> k in data || k in CreateListed || k in FinancialKeys)
  {
    CreateKeysApart();
  }

  /** No financial key is destructured by the create, and the room and the bed
      count are destructured but not listed again. */
  lemma CreateKeysApart()
    ensures forall k :: k in CreateNamed ==> k !in FinancialKeys
    ensures "room_id" in CreateNamed && "beds_required" in CreateNamed
    ensures "room_id" !in CreateListed && "beds_required" !in CreateListed
    ensures forall k :: k in CreateListed ==> k in CreateNamed
  {
  }

  /** The row takes the financial fields from the calculators, and the rest as
      `CreateRowFields` says. */
  lemma CreateRecordFields(data: Record)
    ensures var rec := CreateRecord(data);
      && (forall k :: k in FinancialKeys ==> Get(rec, k) == CreateFinancials(data)[k])
      && (forall k :: k in CreateListed ==> Get(rec, k) == Get(data, k))
      && "room_id" !in rec && "beds_required" !in rec
      && (forall k :: k in data && k !in CreateNamed && k !in FinancialKeys ==> Get(rec, k) == data[k])
      && (forall k :: k in rec ==> k in data || k in CreateListed || k in FinancialKeys)
  {
    CreateRowFields(data, CreateFinancials(data));
  }

  /** Stored under an id, the literal of a create keeps its financial fields
      as JSON writes them and has no `room_id` or `beds_required`. */
  lemma StoredCreateRow(data: Record, fin: Record, id: int)
    requires forall k :: k in fin <==> k in FinancialKeys
    ensures var row := StoredBooking(CreateRow(data, fin), id);
      && (forall k :: k in FinancialKeys ==> Get(row, k) == JsonValue(fin[k]))
      && Get(row, "room_id") == Undefined && Get(row, "beds_required") == Undefined
  {
    CreateRowFields(data, fin);
    assert "booking_id" !in FinancialKeys;
  }

  /** The stored row of a create holds the calculators' results for its channel
      and amounts, and never the `room_id` or `beds_required` of the request. */
  lemma CreatedBookingFinancials(data: Record, id: int, baseAmount: int, paymentReceived: int)
    requires ToNumber(Get(data, "base_amount")) == Some(baseAmount)
    requires ToNumber(Get(data, "payment_received")) == Some(paymentReceived)
    ensures var row := StoredBooking(CreateRecord(data), id);
      var channel := ChannelKey(Get(data, "ota_name"));
      var gst := CalculateGST(channel, baseAmount);
      && Get(row, "commission") == Num(CalculateCommission(channel, baseAmount))
      && Get(row, "gst") == Num(gst)
      && Get(row, "pending_amount") == Num(baseAmount + gst - paymentReceived)
      && Get(row, "payment_status") == Str(CalculatePaymentStatus(baseAmount + gst - paymentReceived, baseAmount, gst))
      && Get(row, "bank") == Str(CalculateBank(channel))
      && Get(row, "room_id") == Undefined && Get(row, "beds_required") == Undefined
  {
    StoredCreateRow(data, CreateFinancials(data), id);
    StoredFinancialField(data, id, "commission");
    StoredFinancialField(data, id, "gst");
    StoredFinancialField(data, id, "pending_amount");
    StoredFinancialField(data, id, "payment_status");
    StoredFinancialField(data, id, "bank");
    CreateFinancialsConsistent(data, baseAmount, paymentReceived);
  }

  /** With numeric amounts, the financial fields of a create are the
      calculators' results, and pending is base + gst − received. */
  lemma CreateFinancialsConsistent(data: Record, baseAmount: int, paymentReceived: int)
    requires ToNumber(Get(data, "base_amount")) == Some(baseAmount)
    requires ToNumber(Get(data, "payment_received")) == Some(paymentReceived)
    ensures var fin := CreateFinancials(data);
      var channel := ChannelKey(Get(data, "ota_name"));
      var gst := CalculateGST(channel, baseAmount);
      && fin["commission"] == Num(CalculateCommission(channel, baseAmount))
      && fin["gst"] == Num(gst)
      && fin["pending_amount"] == Num(baseAmount + gst - paymentReceived)
      && fin["payment_status"] == Str(CalculatePaymentStatus(baseAmount + gst - paymentReceived, baseAmount, gst))
      && fin["bank"] == Str(CalculateBank(channel))
  {
    FinancialFieldsConsistent(Get(data, "ota_name"), baseAmount, paymentReceived);
  }

  /** One financial field of the stored row of a create, as JSON writes it. */
  lemma StoredFinancialField(data: Record, id: int, k: string)
    requires k in FinancialKeys
    ensures Get(StoredBooking(CreateRecord(data), id), k) == JsonValue(CreateFinancials(data)[k])
  {
    StoredCreateRow(data, CreateFinancials(data), id);
  }

  /** The availability check of a create, on the request's room, dates and bed
      count. */
  function CreateAvailability(beds: seq<Bed>, rows: seq<BookingBed>, data: Record, f: CreateFaults): Result<bool, Error>
  {
    CheckAvailability(beds, rows, Get(data, "room_id"), Get(data, "check_in"), Get(data, "check_out"),
                      Get(data, "beds_required"), f.bedsQuery, f.overlapQuery)
  }

  /** The bed assignment as `createBookingService` calls it: five arguments for
      six parameters, so `room_id` lands in `booking_room_id`, `beds_required`
      in `room_id`, `check_in` in `number_of_guests`, `check_out` in `check_in`,
      and `check_out` is undefined. The occupied-beds query cannot read an
      undefined date, so the call always throws. */
  lemma ShiftedAssignmentAlwaysFails(beds: seq<Bed>, rows: seq<BookingBed>, bookingId: int, room: int, data: Record,
                                     bedsFail: bool, overlapFail: bool, insertFail: bool)
    ensures Allocation(beds, rows, bookingId, room, Get(data, "beds_required"), Get(data, "check_in"), Get(data, "check_out"),
                       Undefined, bedsFail, overlapFail, insertFail)
         == Err(if bedsFail || SqlInt(Get(data, "beds_required")).None? then BedManagement.BedsFetchFailed else OccupiedQueryFailed)
  {
  }

  /** `createBookingService(bookingData)` as written: validate, check the
      room, insert the booking, then the shifted `assignBeds` call, which always
      throws. No bed is ever assigned, and a booking row inserted before the
      throw stays. */
  method CreateBooking(db: Db, data: Record, f: CreateFaults) returns (res: Result<Record, Error>)
    requires db.Valid()
    modifies db
    ensures db.Valid()
    ensures db.rooms == old(db.rooms) && db.beds == old(db.beds)
    ensures db.bookingRooms == old(db.bookingRooms) && db.bookingBeds == old(db.bookingBeds)
    ensures res.Err?
    ensures Validate(data).Some? ==> res == Err(Message(Validate(data).value.Text())) && unchanged(db)
    ensures Validate(data).None? && CreateAvailability(db.beds, db.bookingBeds, data, f) != Ok(true) ==> unchanged(db)
    ensures Validate(data).None? && CreateAvailability(db.beds, db.bookingBeds, data, f) == Ok(false) ==> res == Err(NotAvailable)
    ensures Validate(data).None? && CreateAvailability(db.beds, db.bookingBeds, data, f) == Ok(true) && !f.insert ==>
      && db.bookings == old(db.bookings) + [StoredBooking(CreateRecord(data), old(db.nextId))]
      && db.nextId == old(db.nextId) + 1
      && res.error in {BedManagement.BedsFetchFailed, OccupiedQueryFailed}
    ensures db.bookings == old(db.bookings) || db.bookings == old(db.bookings) + [StoredBooking(CreateRecord(data), old(db.nextId))]
  {
    var invalid := ValidateBookingData(data);
    if invalid.Some? {
      return Err(Message(invalid.value.Text()));
    }
    var roomId, checkIn, checkOut, bedsRequired :=
      Get(data, "room_id"), Get(data, "check_in"), Get(data, "check_out"), Get(data, "beds_required");
    var available := CheckAvailability(db.beds, db.bookingBeds, roomId, checkIn, checkOut, bedsRequired,
                                       f.bedsQuery, f.overlapQuery);
    if available.Err? {
      return Err(available.error);
    }
    if !available.value {
      return Err(NotAvailable);
    }
    if f.insert {
      return Err(StoreFailure);
    }
    var booking := InsertCreated(db, CreateRecord(data));
    var bookingId := db.nextId - 1;
    ShiftedAssignmentAlwaysFails(db.beds, db.bookingBeds, bookingId, SqlInt(roomId).value, data,
                                 f.assignBedsQuery, f.assignOverlapQuery, f.assignInsert);
    var assignment := AssignBeds(db, bookingId, SqlInt(roomId).value, bedsRequired, checkIn, checkOut, Undefined,
                               f.assignBedsQuery, f.assignOverlapQuery, f.assignInsert);
    if assignment.Fail? {
      return Err(assignment.error);
    }
    res := Ok(booking);
  }

  /** When the availability check passes, the bed assignment over the same
      tables succeeds: both count the same free beds. With a count of k ≥ 0
      guests, exactly k beds are assigned. */
  lemma AvailabilityGuaranteesAllocation(beds: seq<Bed>, rows: seq<BookingBed>, bookingId: int, bookingRoomId: int,
                                         roomId: Value, checkIn: Value, checkOut: Value, bedsRequired: Value)
    requires CheckAvailability(beds, rows, roomId, checkIn, checkOut, bedsRequired, false, false) == Ok(true)
    ensures var a := Allocation(beds, rows, bookingId, bookingRoomId, roomId, bedsRequired, checkIn, checkOut, false, false, false);
      && a.Ok?
      && forall k :: bedsRequired == Num(k) && 0 <= k ==> |a.value| == k
  {
    var room, ci, co := SqlInt(roomId).value, SqlDay(checkIn).value, SqlDay(checkOut).value;
    forall k | bedsRequired == Num(k) && 0 <= k
      ensures |Allocation(beds, rows, bookingId, bookingRoomId, roomId, bedsRequired, checkIn, checkOut, false, false, false).value| == k
    {
      AllocationTakesFirstFreeBeds(beds, rows, bookingId, bookingRoomId, room, k, ci, co);
    }
  }

  /** The create the service evidently intends: the same steps, with a
      `booking_rooms` row for the booked room and `assignBeds` called with all
      six arguments in order. No bed is ever double-booked, a refused request
      writes nothing, and with no database error an available room gets its
      beds. */
  method CreateBookingFixed(db: Db, data: Record, f: CreateFaults) returns (res: Result<Record, Error>)
    requires db.Valid()
    modifies db
    ensures db.Valid()
    ensures db.rooms == old(db.rooms) && db.beds == old(db.beds)
    ensures Validate(data).Some? ==> res == Err(Message(Validate(data).value.Text())) && unchanged(db)
    ensures Validate(data).None? && CreateAvailability(db.beds, old(db.bookingBeds), data, f) != Ok(true) ==> unchanged(db)
    ensures Validate(data).None? && CreateAvailability(db.beds, old(db.bookingBeds), data, f) == Ok(false) ==> res == Err(NotAvailable)
    ensures res.Ok? ==> Validate(data).None? && CreateAvailability(db.beds, old(db.bookingBeds), data, f) == Ok(true)
    ensures res.Ok? ==> res.value == StoredBooking(CreateRecord(data), old(db.nextId))
    ensures res.Ok? ==> db.bookings == old(db.bookings) + [res.value]
    ensures res.Ok? ==>
      db.bookingRooms == old(db.bookingRooms)
                         + [BookingRoom(old(db.nextId) + 1, old(db.nextId), SqlInt(Get(data, "room_id")).value,
                                        Get(data, "beds_required"))]
    ensures res.Ok? ==>
      var a := Allocation(db.beds, old(db.bookingBeds), old(db.nextId), old(db.nextId) + 1, Get(data, "room_id"),
                          Get(data, "beds_required"), Get(data, "check_in"), Get(data, "check_out"),
                          f.assignBedsQuery, f.assignOverlapQuery, f.assignInsert);
      a.Ok? && db.bookingBeds == old(db.bookingBeds) + a.value
    ensures f.None() && Validate(data).None? && CreateAvailability(db.beds, old(db.bookingBeds), data, f) == Ok(true) ==> res.Ok?
  {
    var invalid := Validate(data);
    if invalid.Some? {
      return Err(Message(invalid.value.Text()));
    }
    res := CreateValidated(db, data, f);
  }

  /** The intended create once the request is valid: the availability check,
      the booking row, its room and its beds. */
  method CreateValidated(db: Db, data: Record, f: CreateFaults) returns (res: Result<Record, Error>)
    requires db.Valid()
    modifies db
    ensures db.Valid()
    ensures db.rooms == old(db.rooms) && db.beds == old(db.beds)
    ensures CreateAvailability(db.beds, old(db.bookingBeds), data, f) != Ok(true) ==> unchanged(db)
    ensures CreateAvailability(db.beds, old(db.bookingBeds), data, f) == Ok(false) ==> res == Err(NotAvailable)
    ensures res.Ok? ==> CreateAvailability(db.beds, old(db.bookingBeds), data, f) == Ok(true)
    ensures res.Ok? ==> res.value == StoredBooking(CreateRecord(data), old(db.nextId))
    ensures res.Ok? ==> db.bookings == old(db.bookings) + [res.value]
    ensures res.Ok? ==>
      db.bookingRooms == old(db.bookingRooms)
                         + [BookingRoom(old(db.nextId) + 1, old(db.nextId), SqlInt(Get(data, "room_id")).value,
                                        Get(data, "beds_required"))]
    ensures res.Ok? ==>
      var a := Allocation(db.beds, old(db.bookingBeds), old(db.nextId), old(db.nextId) + 1, Get(data, "room_id"),
                          Get(data, "beds_required"), Get(data, "check_in"), Get(data, "check_out"),
                          f.assignBedsQuery, f.assignOverlapQuery, f.assignInsert);
      a.Ok? && db.bookingBeds == old(db.bookingBeds) + a.value
    ensures f.None() && CreateAvailability(db.beds, old(db.bookingBeds), data, f) == Ok(true) ==> res.Ok?
  {
    var roomId, checkIn, checkOut, bedsRequired :=
      Get(data, "room_id"), Get(data, "check_in"), Get(data, "check_out"), Get(data, "beds_required");
    var available := CheckAvailability(db.beds, db.bookingBeds, roomId, checkIn, checkOut, bedsRequired,
                                       f.bedsQuery, f.overlapQuery);
    if available.Err? {
      return Err(available.error);
    }
    if !available.value {
      return Err(NotAvailable);
    }
    if f.insert {
      return Err(StoreFailure);
    }
    var bookingId := db.nextId;
    ghost var rows, bookingRooms := db.bookingBeds, db.bookingRooms;
    var booking := InsertCreated(db, CreateRecord(data));
    assert db.nextId == bookingId + 1 && db.bookingRooms == bookingRooms && db.bookingBeds == rows;
    var placed := PlaceBooking(db, bookingId, roomId, checkIn, checkOut, bedsRequired, f);
    if placed.Fail? {
      return Err(placed.error);
    }
    res := Ok(booking);
  }

  /** The insert of a create's booking row, under the next id. */
  method InsertCreated(db: Db, rec: Record) returns (booking: Record)
    requires db.Valid()
    modifies db
    ensures db.Valid()
    ensures db.rooms == old(db.rooms) && db.beds == old(db.beds)
    ensures db.bookingRooms == old(db.bookingRooms) && db.bookingBeds == old(db.bookingBeds)
    ensures booking == StoredBooking(rec, old(db.nextId))
    ensures db.bookings == old(db.bookings) + [booking] && db.nextId == old(db.nextId) + 1
  {
    booking := StoredBooking(rec, db.nextId);
    db.bookings := db.bookings + [booking];
    db.nextId := db.nextId + 1;
  }

  /** The steps of the intended create after the booking row: the
      `booking_rooms` row of the booked room, then the bed assignment for it.
      The booking row is left alone. */
  method PlaceBooking(db: Db, bookingId: int, roomId: Value, checkIn: Value, checkOut: Value, bedsRequired: Value,
                      f: CreateFaults) returns (res: Outcome<Error>)
    requires db.Valid() && SqlInt(roomId).Some?
    modifies db
    ensures db.Valid()
    ensures db.rooms == old(db.rooms) && db.beds == old(db.beds) && db.bookings == old(db.bookings)
    ensures f.roomInsert ==> res == Fail(StoreFailure) && unchanged(db)
    ensures var a := Allocation(db.beds, old(db.bookingBeds), bookingId, old(db.nextId), roomId, bedsRequired, checkIn,
                                checkOut, f.assignBedsQuery, f.assignOverlapQuery, f.assignInsert);
      res.Pass? ==>
      && a.Ok?
      && db.bookingRooms == old(db.bookingRooms) + [BookingRoom(old(db.nextId), bookingId, SqlInt(roomId).value, bedsRequired)]
      && db.bookingBeds == old(db.bookingBeds) + a.value
    ensures !f.roomInsert && !f.assignBedsQuery && !f.assignOverlapQuery && !f.assignInsert
            && CheckAvailability(db.beds, old(db.bookingBeds), roomId, checkIn, checkOut, bedsRequired, false, false) == Ok(true)
            ==> res.Pass?
  {
    if f.roomInsert {
      return Fail(StoreFailure);
    }
    var bookingRoomId := db.nextId;
    db.bookingRooms := db.bookingRooms + [BookingRoom(bookingRoomId, bookingId, SqlInt(roomId).value, bedsRequired)];
    db.nextId := db.nextId + 1;
    if !f.assignBedsQuery && !f.assignOverlapQuery && !f.assignInsert
       && CheckAvailability(db.beds, db.bookingBeds, roomId, checkIn, checkOut, bedsRequired, false, false) == Ok(true) {
      AvailabilityGuaranteesAllocation(db.beds, db.bookingBeds, bookingId, bookingRoomId, roomId, checkIn, checkOut, bedsRequired);
    }
    res := AssignBeds(db, bookingId, bookingRoomId, roomId, bedsRequired, checkIn, checkOut,
                      f.assignBedsQuery, f.assignOverlapQuery, f.assignInsert);
  }

  /** The update recomputes the financial fields only when the update carries
      `payment_received` or `base_amount`. */
  predicate TouchesAmounts(update: Record)
  {
    Get(update, "payment_received") != Undefined || Get(update, "base_amount") != Undefined
  }

  /** `updateBookingService(id, updateData)` as written: the raw update is
      written to the booking's row; then, when an amount changed, the call to
      `updatePaymentAndBank` throws a ReferenceError, because the service never
      imports it. The derived fields are never recomputed. */
  method UpdateBooking(db: Db, id: Value, update: Record, updateFail: bool) returns (res: Result<Value, Error>)
    requires db.Valid()
    modifies db
    ensures db.Valid()
    ensures db.rooms == old(db.rooms) && db.beds == old(db.beds) && db.bookingRooms == old(db.bookingRooms)
    ensures db.bookingBeds == old(db.bookingBeds) && db.nextId == old(db.nextId)
    ensures res == Err(StoreFailure) <==> updateFail || SqlInt(id).None?
    ensures res == Err(StoreFailure) ==> db.bookings == old(db.bookings)
    ensures res != Err(StoreFailure) ==> db.bookings == PatchBookings(old(db.bookings), SqlInt(id).value, Json(update))
    ensures res != Err(StoreFailure) ==>
      res == if TouchesAmounts(update) then Err(ReferenceError("updatePaymentAndBank")) else Ok(Null)
  {
    if updateFail || SqlInt(id).None? {
      return Err(StoreFailure);
    }
    db.bookings := PatchBookings(db.bookings, SqlInt(id).value, Json(update));
    if TouchesAmounts(update) {
      return Err(ReferenceError("updatePaymentAndBank"));
    }
    res := Ok(Null);
  }

  /** The stored amounts are consistent: pending = base + gst − received. */
  predicate PendingConsistent(row: Record)
  {
    && Get(row, "base_amount").Num? && Get(row, "gst").Num? && Get(row, "payment_received").Num?
    && Get(row, "pending_amount") == Num(Get(row, "base_amount").n + Get(row, "gst").n - Get(row, "payment_received").n)
  }

  /** Booking 1, made on Booking.com for 1000 with nothing paid, as the create
      stores it. */
  predicate UnpaidBooking(row: Record)
  {
    && Get(row, "booking_id") == Num(1) && Get(row, "ota_name") == Str("Booking.com")
    && Get(row, "base_amount") == Num(1000) && Get(row, "payment_received") == Num(0)
    && Get(row, "gst") == Num(120) && Get(row, "pending_amount") == Num(1120) && Get(row, "payment_status") == Str("Unpaid")
  }

  /** Recording the full payment through the update as written leaves the row
      'Unpaid' with 1120 pending although 1120 was received: the consistency
      the create established is lost. */
  lemma StalePendingAfterUpdate(booking: Record, update: Record)
    requires UnpaidBooking(booking) && update == map["payment_received" := Num(1120)]
    ensures PendingConsistent(booking)
    ensures var row := PatchBookings([booking], 1, Json(update))[0];
      && Get(row, "payment_received") == Num(1120)
      && Get(row, "payment_status") == Str("Unpaid")
      && !PendingConsistent(row)
  {
    assert HasBookingId(booking, 1);
    assert PatchBookings([booking], 1, Json(update))[0] == booking + Json(update);
    assert Json(update) == update;
    PatchedRowFields(booking, update);
  }

  /** `updateBookingService` with `updatePaymentAndBank` imported and nothing
      else changed: the raw update, then the six derived fields computed from
      the update's own channel and amounts, converted by `Number()`. */
  method UpdateBookingImported(db: Db, id: Value, update: Record, updateFail: bool, paymentFail: bool)
    returns (res: Result<Value, Error>)
    requires db.Valid()
    modifies db
    ensures db.Valid()
    ensures db.rooms == old(db.rooms) && db.beds == old(db.beds) && db.bookingRooms == old(db.bookingRooms)
    ensures db.bookingBeds == old(db.bookingBeds) && db.nextId == old(db.nextId)
    ensures res.Err? ==> res.error == StoreFailure
    ensures res.Ok? <==> !updateFail && SqlInt(id).Some? && (!TouchesAmounts(update) || !paymentFail)
    ensures updateFail || SqlInt(id).None? ==> db.bookings == old(db.bookings)
    ensures res.Err? && !updateFail && SqlInt(id).Some? ==>
      db.bookings == PatchBookings(old(db.bookings), SqlInt(id).value, Json(update))
    ensures res.Ok? && !TouchesAmounts(update) ==> db.bookings == PatchBookings(old(db.bookings), SqlInt(id).value, Json(update))
    ensures res.Ok? && TouchesAmounts(update) ==>
      db.bookings == PatchBookings(PatchBookings(old(db.bookings), SqlInt(id).value, Json(update)), SqlInt(id).value,
                                   UpdatePatch(update))
  {
    if updateFail || SqlInt(id).None? {
      return Err(StoreFailure);
    }
    db.bookings := PatchBookings(db.bookings, SqlInt(id).value, Json(update));
    if TouchesAmounts(update) {
      var paid := UpdatePaymentAndBank(db, id, Get(update, "ota_name"), ToNumber(Get(update, "payment_received")),
                                       ToNumber(Get(update, "base_amount")), paymentFail);
      if paid.Fail? {
        return Err(paid.error);
      }
    }
    res := Ok(Null);
  }

  /** The six fields the imported call writes, from `updateData` alone. */
  function UpdatePatch(update: Record): Record
  {
    PaymentPatch(Get(update, "ota_name"), ToNumber(Get(update, "payment_received")), ToNumber(Get(update, "base_amount")))
  }

  /** Even with the call imported, an update that carries a payment but no base
      amount breaks the booking's row: the base is `Number(undefined)`, NaN, so
      gst and pending_amount are written null and the status 'Part-Payment'. */
  lemma PartialUpdateNullsPending(rows: seq<Record>, id: int, update: Record, i: nat)
    requires i < |rows| && HasBookingId(rows[i], id) && "booking_id" !in update
    requires Get(update, "base_amount") == Undefined
    ensures var after := PatchBookings(PatchBookings(rows, id, Json(update)), id, UpdatePatch(update));
      && Get(after[i], "gst") == Null
      && Get(after[i], "pending_amount") == Null
      && Get(after[i], "payment_status") == Str("Part-Payment")
      && !PendingConsistent(after[i])
  {
    var first := PatchBookings(rows, id, Json(update));
    assert first[i] == rows[i] + Json(update);
    RawUpdateKeepsId(rows[i], update, id);
    var patch := UpdatePatch(update);
    var ota, paid := Get(update, "ota_name"), ToNumber(Get(update, "payment_received"));
    assert patch == PaymentPatch(ota, paid, None);
    assert PatchBookings(first, id, patch)[i] == first[i] + patch;
    BaselessPatchNullsPending(first[i], ota, paid);
  }

  /** The six fields computed without a base amount null a row's gst and
      pending amount and mark it 'Part-Payment'. */
  lemma BaselessPatchNullsPending(row: Record, ota: Value, paymentReceived: Option<int>)
    ensures var patched := row + PaymentPatch(ota, paymentReceived, None);
      && Get(patched, "gst") == Null
      && Get(patched, "pending_amount") == Null
      && Get(patched, "payment_status") == Str("Part-Payment")
  {
    var patch := PaymentPatch(ota, paymentReceived, None);
    PaymentPatchFields(ota, paymentReceived, None);
    NaNAmountIsPartPayment(ota, None, paymentReceived);
    PatchedRowFields(row, patch);
    assert "gst" in FinancialKeys && "pending_amount" in FinancialKeys && "payment_status" in FinancialKeys;
  }

  /** With the call imported, an update carrying both amounts but no channel is
      charged at the 'Other' rates, whatever channel the booking was made on. */
  lemma MissingChannelChargedAsOther(update: Record, baseAmount: int, paymentReceived: int)
    requires Get(update, "ota_name") == Undefined
    requires Get(update, "base_amount") == Num(baseAmount) && Get(update, "payment_received") == Num(paymentReceived)
    ensures UpdatePatch(update)["commission"] == Num(0)
    ensures UpdatePatch(update)["gst"] == Num(0)
    ensures UpdatePatch(update)["bank"] == Str("Secondary")
  {
    FinancialFieldsConsistent(Undefined, baseAmount, paymentReceived);
    UnknownChannelIsOther("undefined", baseAmount);
  }

  /** The six derived fields recomputed from a stored row: its channel, and its
      amounts converted by `Number()`. */
  function RowPatch(row: Record): Record
  {
    PaymentPatch(Get(row, "ota_name"), ToNumber(Get(row, "payment_received")), ToNumber(Get(row, "base_amount")))
  }

  /** Every row of the booking takes the fields recomputed from its own values. */
  function Recompute(rows: seq<Record>, id: int): seq<Record>
  {
    seq(|rows|, i requires 0 <= i < |rows| => if HasBookingId(rows[i], id) then rows[i] + RowPatch(rows[i]) else rows[i])
  }

  /** The update the service evidently intends: the raw update, then, when an
      amount changed, the six derived fields recomputed from the booking's row
      as the raw update left it, so a field the update omits is taken from the
      stored booking. */
  method UpdateBookingFixed(db: Db, id: Value, update: Record, updateFail: bool, paymentFail: bool)
    returns (res: Result<Value, Error>)
    requires db.Valid()
    modifies db
    ensures db.Valid()
    ensures db.rooms == old(db.rooms) && db.beds == old(db.beds) && db.bookingRooms == old(db.bookingRooms)
    ensures db.bookingBeds == old(db.bookingBeds) && db.nextId == old(db.nextId)
    ensures res.Err? ==> res.error == StoreFailure
    ensures res.Ok? <==> !updateFail && SqlInt(id).Some? && (!TouchesAmounts(update) || !paymentFail)
    ensures updateFail || SqlInt(id).None? ==> db.bookings == old(db.bookings)
    ensures res.Err? && !updateFail && SqlInt(id).Some? ==>
      db.bookings == PatchBookings(old(db.bookings), SqlInt(id).value, Json(update))
    ensures res.Ok? && !TouchesAmounts(update) ==> db.bookings == PatchBookings(old(db.bookings), SqlInt(id).value, Json(update))
    ensures res.Ok? && TouchesAmounts(update) ==>
      db.bookings == Recompute(PatchBookings(old(db.bookings), SqlInt(id).value, Json(update)), SqlInt(id).value)
  {
    if updateFail || SqlInt(id).None? {
      return Err(StoreFailure);
    }
    db.bookings := PatchBookings(db.bookings, SqlInt(id).value, Json(update));
    if TouchesAmounts(update) {
      if paymentFail {
        return Err(StoreFailure);
      }
      db.bookings := Recompute(db.bookings, SqlInt(id).value);
    }
    res := Ok(Null);
  }

  /** After the intended update, a booking whose amounts are numbers is
      consistent again, whichever fields the update carried: its GST, status
      and bank are those of its own channel and base amount, and
      pending = base + gst − received. */
  lemma FixedUpdateKeepsPendingConsistent(rows: seq<Record>, id: int, update: Record, i: nat,
                                          baseAmount: int, paymentReceived: int)
    requires i < |rows| && HasBookingId(rows[i], id) && "booking_id" !in update
    requires Get(rows[i] + Json(update), "base_amount") == Num(baseAmount)
    requires Get(rows[i] + Json(update), "payment_received") == Num(paymentReceived)
    ensures var after := Recompute(PatchBookings(rows, id, Json(update)), id);
      var channel := ChannelKey(Get(rows[i] + Json(update), "ota_name"));
      var gst := CalculateGST(channel, baseAmount);
      && HasBookingId(after[i], id)
      && PendingConsistent(after[i])
      && Get(after[i], "payment_received") == Num(paymentReceived)
      && Get(after[i], "gst") == Num(gst)
      && Get(after[i], "payment_status") == Str(CalculatePaymentStatus(baseAmount + gst - paymentReceived, baseAmount, gst))
      && Get(after[i], "bank") == Str(CalculateBank(channel))
  {
    var first := PatchBookings(rows, id, Json(update));
    assert first[i] == rows[i] + Json(update);
    RawUpdateKeepsId(rows[i], update, id);
    assert RowPatch(first[i]) == PaymentPatch(Get(first[i], "ota_name"), Some(paymentReceived), Some(baseAmount));
    PaymentPatchRestoresPending(first[i], id, Get(first[i], "ota_name"), baseAmount, paymentReceived);
  }

  /** The intended update repairs the example above: recording the full 1120 on
      the Booking.com booking leaves nothing pending and the status 'Paid'. */
  lemma FixedUpdateRepairsExample(booking: Record, update: Record)
    requires UnpaidBooking(booking) && update == map["payment_received" := Num(1120)]
    ensures var row := Recompute(PatchBookings([booking], 1, Json(update)), 1)[0];
      && PendingConsistent(row)
      && Get(row, "pending_amount") == Num(0)
      && Get(row, "payment_status") == Str("Paid")
  {
    RecordPaymentFields(booking, update);
    FixedUpdateKeepsPendingConsistent([booking], 1, update, 0, 1000, 1120);
    BookingComFullyPaid();
  }

  /** The example's raw update leaves booking 1 on Booking.com, base 1000, with
      1120 received. */
  lemma RecordPaymentFields(booking: Record, update: Record)
    requires UnpaidBooking(booking) && update == map["payment_received" := Num(1120)]
    ensures "booking_id" !in update && HasBookingId(booking, 1)
    ensures Get(booking + Json(update), "ota_name") == Str("Booking.com")
    ensures Get(booking + Json(update), "base_amount") == Num(1000)
    ensures Get(booking + Json(update), "payment_received") == Num(1120)
  {
    assert Json(update) == update;
    PatchedRowFields(booking, update);
  }

  /** The raw update, which carries no booking_id, keeps the row's id. */
  lemma RawUpdateKeepsId(row: Record, update: Record, id: int)
    requires HasBookingId(row, id) && "booking_id" !in update
    ensures HasBookingId(row + Json(update), id)
  {
    PatchedRowFields(row, Json(update));
    assert "booking_id" !in Json(update);
  }

  /** Writing the six derived fields into a row whose base amount is a number
      makes its GST, status and bank those of the given channel, its pending
      amount base + gst − received, and keeps its id. */
  lemma PaymentPatchRestoresPending(row: Record, id: int, ota: Value, baseAmount: int, paymentReceived: int)
    requires HasBookingId(row, id) && Get(row, "base_amount") == Num(baseAmount)
    ensures var patched := row + PaymentPatch(ota, Some(paymentReceived), Some(baseAmount));
      var gst := CalculateGST(ChannelKey(ota), baseAmount);
      && HasBookingId(patched, id)
      && PendingConsistent(patched)
      && Get(patched, "payment_received") == Num(paymentReceived)
      && Get(patched, "gst") == Num(gst)
      && Get(patched, "payment_status") == Str(CalculatePaymentStatus(baseAmount + gst - paymentReceived, baseAmount, gst))
      && Get(patched, "bank") == Str(CalculateBank(ChannelKey(ota)))
  {
    var patch := PaymentPatch(ota, Some(paymentReceived), Some(baseAmount));
    PaymentPatchFields(ota, Some(paymentReceived), Some(baseAmount));
    FinancialFieldsConsistent(ota, baseAmount, paymentReceived);
    PatchedRowFields(row, patch);
    assert "gst" in FinancialKeys && "pending_amount" in FinancialKeys && "base_amount" !in patch;
    assert "payment_status" in FinancialKeys && "bank" in FinancialKeys;
  }

  /** The rows of `bookings` left after `delete ... where booking_id = id`. */
  function WithoutBooking(rows: seq<Record>, id: int): (kept: seq<Record>)
    ensures forall row :: row in kept <==> row in rows && !HasBookingId(row, id)
  {
    Filter(rows, (row: Record) => !HasBookingId(row, id))
  }

  /** `deleteBookingService(id)`: deletes the booking's row and nothing else;
      its `booking_rooms` and `booking_beds` rows stay. */
  method DeleteBooking(db: Db, id: Value, deleteFail: bool) returns (res: Result<Value, Error>)
    requires db.Valid()
    modifies db
    ensures db.Valid()
    ensures db.rooms == old(db.rooms) && db.beds == old(db.beds) && db.bookingRooms == old(db.bookingRooms)
    ensures db.bookingBeds == old(db.bookingBeds) && db.nextId == old(db.nextId)
    ensures res.Err? <==> deleteFail || SqlInt(id).None?
    ensures res.Err? ==> res.error == StoreFailure && db.bookings == old(db.bookings)
    ensures res.Ok? ==> db.bookings == WithoutBooking(old(db.bookings), SqlInt(id).value)
  {
    if deleteFail || SqlInt(id).None? {
      return Err(StoreFailure);
    }
    db.bookings := WithoutBooking(db.bookings, SqlInt(id).value);
    res := Ok(Null);
  }
}
