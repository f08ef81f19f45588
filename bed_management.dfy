/** `assignBeds` and `deleteBookingAssignments`: the writes of the
    `booking_beds` table. Beds are handed out in the order the beds query
    returns them, skipping those an overlapping assignment holds; the cascade
    deletes a booking's bed assignments before its room assignments. */
module BedManagement {
  import opened Js
  import opened Store

  const BedsFetchFailed := Message("Error fetching beds.")
  const OccupiedQueryFailed := Message("Error checking occupied beds.")
  const NotEnoughBeds := Message("Not enough available beds to assign.")
  const InsertFailed := Message("Error assigning beds.")
  const BedsDeleteFailed := Message("Error deleting bed assignments")
  const RoomsDeleteFailed := Message("Error deleting room assignments")

  /** `availableBeds.length < number_of_guests`: the count is converted with
      `Number()`, and a NaN count is never larger. */
  predicate TooFew(free: int, numberOfGuests: Value)
  {
    var n := ToNumber(numberOfGuests);
    n.Some? && free < n.value
  }

  /** The end index `slice(0, end)` uses on a list of length `len`: the whole
      list for `undefined`, 0 for NaN, counted from the back when negative, and
      clamped to the list. */
  function SliceEnd(end: Value, len: nat): (k: nat)
    ensures k <= len
  {
    if end == Undefined then len
    else match ToNumber(end)
      case None => 0
      case Some(n) => if n < 0 then (if len + n < 0 then 0 else len + n) else if n > len then len else n
  }

  /** One `booking_beds` row per chosen bed, all for the same booking, booking
      room and stay. */
  function Assignments(bookingId: int, bookingRoomId: int, bedIds: seq<int>, checkIn: int, checkOut: int): (rows: seq<BookingBed>)
    ensures |rows| == |bedIds|
    ensures forall i :: 0 <= i < |rows| ==> rows[i] == BookingBed(bookingId, bookingRoomId, bedIds[i], checkIn, checkOut)
  {
    seq(|bedIds|, i requires 0 <= i < |bedIds| => BookingBed(bookingId, bookingRoomId, bedIds[i], checkIn, checkOut))
  }

  /** What `assignBeds` inserts, or the error it throws: the three flags say
      whether the beds query, the occupied-beds query and the insert fail. */
  function Allocation(beds: seq<Bed>, rows: seq<BookingBed>, bookingId: int, bookingRoomId: int, roomId: Value,
                      numberOfGuests: Value, checkIn: Value, checkOut: Value,
                      bedsFail: bool, overlapFail: bool, insertFail: bool): Result<seq<BookingBed>, Error>
  {
    if bedsFail || SqlInt(roomId).None? then Err(BedsFetchFailed)
    else if overlapFail || SqlDay(checkIn).None? || SqlDay(checkOut).None? then Err(OccupiedQueryFailed)
    else
      var ci, co := SqlDay(checkIn).value, SqlDay(checkOut).value;
      var free := FreeBeds(beds, rows, SqlInt(roomId).value, ci, co);
      if TooFew(|free|, numberOfGuests) then Err(NotEnoughBeds)
      else if insertFail then Err(InsertFailed)
      else Ok(Assignments(bookingId, bookingRoomId, free[..SliceEnd(numberOfGuests, |free|)], ci, co))
  }

  /** When fewer beds are free than guests are asked for, the allocation fails
      and nothing is inserted. */
  lemma TooFewFreeBedsFails(beds: seq<Bed>, rows: seq<BookingBed>, bookingId: int, bookingRoomId: int, room: int,
                            numberOfGuests: int, ci: int, co: int, insertFail: bool)
    requires |FreeBeds(beds, rows, room, ci, co)| < numberOfGuests
    ensures Allocation(beds, rows, bookingId, bookingRoomId, Num(room), Num(numberOfGuests), Num(ci), Num(co), false, false, insertFail)
            == Err(NotEnoughBeds)
  {
  }

  /** Otherwise exactly `number_of_guests` rows are inserted, for the first free
      beds of the room in bed order, each carrying the booking, the booking room
      and the stay it was asked for. */
  lemma {:induction false} AllocationTakesFirstFreeBeds(beds: seq<Bed>, rows: seq<BookingBed>, bookingId: int, bookingRoomId: int,
                                                      room: int, numberOfGuests: nat, ci: int, co: int)
    requires numberOfGuests <= |FreeBeds(beds, rows, room, ci, co)|
    ensures var a := Allocation(beds, rows, bookingId, bookingRoomId, Num(room), Num(numberOfGuests), Num(ci), Num(co), false, false, false);
      && a.Ok?
      && |a.value| == numberOfGuests
      && (forall i :: 0 <= i < numberOfGuests ==>
            a.value[i] == BookingBed(bookingId, bookingRoomId, FreeBeds(beds, rows, room, ci, co)[i], ci, co))
  {
    var free := FreeBeds(beds, rows, room, ci, co);
    assert SliceEnd(Num(numberOfGuests), |free|) == numberOfGuests;
    var a := Allocation(beds, rows, bookingId, bookingRoomId, Num(room), Num(numberOfGuests), Num(ci), Num(co), false, false, false);
    assert a.value == Assignments(bookingId, bookingRoomId, free[..numberOfGuests], ci, co);
  }

  /** Every inserted row holds a bed of the requested room that no existing
      assignment overlaps, for the requested booking, booking room and stay. */
  lemma AllocatedBedsAreFreeBedsOfTheRoom(beds: seq<Bed>, rows: seq<BookingBed>, bookingId: int, bookingRoomId: int,
                                          roomId: Value, numberOfGuests: Value, checkIn: Value, checkOut: Value,
                                          x: BookingBed)
    requires Allocation(beds, rows, bookingId, bookingRoomId, roomId, numberOfGuests, checkIn, checkOut, false, false, false).Ok?
    requires x in Allocation(beds, rows, bookingId, bookingRoomId, roomId, numberOfGuests, checkIn, checkOut, false, false, false).value
    ensures x.bookingId == bookingId && x.bookingRoomId == bookingRoomId
    ensures Some(x.checkIn) == SqlDay(checkIn) && Some(x.checkOut) == SqlDay(checkOut)
    ensures Bed(x.bedId, SqlInt(roomId).value) in beds
    ensures forall row :: row in rows ==> NotOverlapping(row, x) && NotOverlapping(x, row)
  {
    var room, ci, co := SqlInt(roomId).value, SqlDay(checkIn).value, SqlDay(checkOut).value;
    var free := FreeBeds(beds, rows, room, ci, co);
    var chosen := free[..SliceEnd(numberOfGuests, |free|)];
    var news := Assignments(bookingId, bookingRoomId, chosen, ci, co);
    var i :| 0 <= i < |news| && news[i] == x;
    assert chosen[i] in free;
  }

  /** The allocation never double-books a bed: given distinct bed ids, the
      inserted rows overlap neither each other nor any existing row. */
  lemma AllocationKeepsNoDoubleBooking(beds: seq<Bed>, rows: seq<BookingBed>, bookingId: int, bookingRoomId: int,
                                       roomId: Value, numberOfGuests: Value, checkIn: Value, checkOut: Value)
    requires UniqueBedIds(beds) && NoDoubleBooking(rows)
    requires Allocation(beds, rows, bookingId, bookingRoomId, roomId, numberOfGuests, checkIn, checkOut, false, false, false).Ok?
    ensures NoDoubleBooking(rows + Allocation(beds, rows, bookingId, bookingRoomId, roomId, numberOfGuests, checkIn, checkOut, false, false, false).value)
  {
    var room, ci, co := SqlInt(roomId).value, SqlDay(checkIn).value, SqlDay(checkOut).value;
    var free := FreeBeds(beds, rows, room, ci, co);
    var chosen := free[..SliceEnd(numberOfGuests, |free|)];
    var news := Assignments(bookingId, bookingRoomId, chosen, ci, co);
    FreeBedsDistinct(beds, rows, room, ci, co);
    assert NoDoubleBooking(news) by {
      forall i, j | 0 <= i < j < |news| ensures NotOverlapping(news[i], news[j]) {
        assert Differ(free[i], free[j]);
      }
    }
    forall a, b | a in rows && b in news ensures NotOverlapping(a, b) {
      AllocatedBedsAreFreeBedsOfTheRoom(beds, rows, bookingId, bookingRoomId, roomId, numberOfGuests, checkIn, checkOut, b);
    }
    PairwiseAppend(rows, news, NotOverlapping);
  }

  /** `assignBeds(booking_id, booking_room_id, room_id, number_of_guests,
      check_in, check_out)`: fetch the room's beds, fetch the overlapping
      assignments, refuse when too few beds are free, then insert one row per
      chosen bed. Only `booking_beds` changes, and only on success. */
  method AssignBeds(db: Db, bookingId: int, bookingRoomId: int, roomId: Value, numberOfGuests: Value,
                    checkIn: Value, checkOut: Value, bedsFail: bool, overlapFail: bool, insertFail: bool)
    returns (res: Outcome<Error>)
    requires db.Valid()
    modifies db
    ensures db.Valid()
    ensures db.rooms == old(db.rooms) && db.beds == old(db.beds) && db.bookings == old(db.bookings)
    ensures db.bookingRooms == old(db.bookingRooms) && db.nextId == old(db.nextId)
    ensures var a := Allocation(old(db.beds), old(db.bookingBeds), bookingId, bookingRoomId, roomId, numberOfGuests,
                                checkIn, checkOut, bedsFail, overlapFail, insertFail);
      && (res.Pass? <==> a.Ok?)
      && (res.Fail? ==> res.error == a.error && db.bookingBeds == old(db.bookingBeds))
      && (res.Pass? ==> db.bookingBeds == old(db.bookingBeds) + a.value)
  {
    if bedsFail || SqlInt(roomId).None? {
      return Fail(BedsFetchFailed);
    }
    var room := SqlInt(roomId).value;
    if overlapFail || SqlDay(checkIn).None? || SqlDay(checkOut).None? {
      return Fail(OccupiedQueryFailed);
    }
    var ci, co := SqlDay(checkIn).value, SqlDay(checkOut).value;
    var free := FreeBeds(db.beds, db.bookingBeds, room, ci, co);
    if TooFew(|free|, numberOfGuests) {
      return Fail(NotEnoughBeds);
    }
    var chosen := free[..SliceEnd(numberOfGuests, |free|)];
    if insertFail {
      return Fail(InsertFailed);
    }
    AllocationKeepsNoDoubleBooking(db.beds, db.bookingBeds, bookingId, bookingRoomId, roomId, numberOfGuests, checkIn, checkOut);
    db.bookingBeds := db.bookingBeds + Assignments(bookingId, bookingRoomId, chosen, ci, co);
    res := Pass;
  }

  /** The rows of a child table left after `delete ... where booking_id = id`. */
  function WithoutBookingBeds(rows: seq<BookingBed>, bookingId: int): (kept: seq<BookingBed>)
    ensures forall x :: x in kept <==> x in rows && x.bookingId != bookingId
  {
    Filter(rows, (x: BookingBed) => x.bookingId != bookingId)
  }

  function WithoutBookingRooms(rows: seq<BookingRoom>, bookingId: int): (kept: seq<BookingRoom>)
    ensures forall x :: x in kept <==> x in rows && x.bookingId != bookingId
  {
    Filter(rows, (x: BookingRoom) => x.bookingId != bookingId)
  }

  /** `deleteBookingAssignments(booking_id)`: delete the booking's
      `booking_beds` rows, then its `booking_rooms` rows. When the first delete
      fails nothing is deleted; when the second fails the bed assignments are
      already gone and the room assignments stay. */
  method DeleteBookingAssignments(db: Db, bookingId: Value, bedsDeleteFail: bool, roomsDeleteFail: bool)
    returns (res: Outcome<Error>)
    requires db.Valid()
    modifies db
    ensures db.Valid()
    ensures db.rooms == old(db.rooms) && db.beds == old(db.beds) && db.bookings == old(db.bookings)
    ensures db.nextId == old(db.nextId)
    ensures res == Fail(BedsDeleteFailed) <==> bedsDeleteFail || SqlInt(bookingId).None?
    ensures res == Fail(BedsDeleteFailed) ==>
      db.bookingBeds == old(db.bookingBeds) && db.bookingRooms == old(db.bookingRooms)
    ensures res != Fail(BedsDeleteFailed) ==>
      db.bookingBeds == WithoutBookingBeds(old(db.bookingBeds), SqlInt(bookingId).value)
    ensures res == Fail(RoomsDeleteFailed) <==> !bedsDeleteFail && SqlInt(bookingId).Some? && roomsDeleteFail
    ensures res == Fail(RoomsDeleteFailed) ==> db.bookingRooms == old(db.bookingRooms)
    ensures res.Pass? ==> db.bookingRooms == WithoutBookingRooms(old(db.bookingRooms), SqlInt(bookingId).value)
  {
    if bedsDeleteFail || SqlInt(bookingId).None? {
      return Fail(BedsDeleteFailed);
    }
    var id := SqlInt(bookingId).value;
    FilterKeepsPairwise(db.bookingBeds, (x: BookingBed) => x.bookingId != id, NotOverlapping);
    db.bookingBeds := WithoutBookingBeds(db.bookingBeds, id);
    if roomsDeleteFail {
      return Fail(RoomsDeleteFailed);
    }
    db.bookingRooms := WithoutBookingRooms(db.bookingRooms, id);
    res := Pass;
  }
}
