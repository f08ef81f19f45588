/** The booking-rooms controller: listing a booking's rooms, and removing one
    room from a booking together with its bed assignments. */
module BookingRoomsController {
  import opened Js
  import opened Store
  import opened Http

  /** `select * from booking_rooms where booking_id = bookingId`: the route
      parameter is handed to the database as a string, which it must read as
      an integer. An error comes back as 400 with the database's message. */
  function GetRoomsForBooking(rows: seq<BookingRoom>, bookingId: string, queryFail: bool)
    : (r: Result<seq<BookingRoom>, Reply>)
    ensures r.Err? <==> queryFail || SqlInt(Str(bookingId)).None?
    ensures r.Err? ==> r.error == Reply(400, DatabaseText("error", ""))
    ensures r.Ok? ==> forall x :: x in r.value <==> x in rows && x.bookingId == SqlInt(Str(bookingId)).value
    ensures r.Ok? ==> |r.value| <= |rows|
  {
    if queryFail || SqlInt(Str(bookingId)).None? then Err(Reply(400, DatabaseText("error", "")))
    else
      var id := SqlInt(Str(bookingId)).value;
      Ok(Filter(rows, (x: BookingRoom) => x.bookingId == id))
  }

  /** `booking_beds` rows of one booking room. */
  function BedsOfBookingRoom(rows: seq<BookingBed>, bookingRoomId: int): (found: seq<BookingBed>)
    ensures forall x :: x in found <==> x in rows && x.bookingRoomId == bookingRoomId
  {
    Filter(rows, (x: BookingBed) => x.bookingRoomId == bookingRoomId)
  }

  /** `delete from booking_beds where booking_room_id = id`. */
  function WithoutBedsOfBookingRoom(rows: seq<BookingBed>, bookingRoomId: int): (kept: seq<BookingBed>)
    ensures forall x :: x in kept <==> x in rows && x.bookingRoomId != bookingRoomId
  {
    Filter(rows, (x: BookingBed) => x.bookingRoomId != bookingRoomId)
  }

  /** `delete from booking_rooms where booking_room_id = id`. */
  function WithoutBookingRoom(rows: seq<BookingRoom>, bookingRoomId: int): (kept: seq<BookingRoom>)
    ensures forall x :: x in kept <==> x in rows && x.bookingRoomId != bookingRoomId
  {
    Filter(rows, (x: BookingRoom) => x.bookingRoomId != bookingRoomId)
  }

  /** The route parameter is refused: empty, or with no leading integer. */
  predicate InvalidId(id: string)
  {
    id == "" || ParseInt(id).None?
  }

  /** `removeRoomFromBooking`: look up the booking room's beds; delete them when
      there are any; then delete the booking room. Each database error ends the
      request with 500 and leaves what follows undone. */
  method RemoveRoomFromBooking(db: Db, id: string, fetchFail: bool, bedsDeleteFail: bool, roomDeleteFail: bool)
    returns (reply: Reply)
    requires db.Valid()
    modifies db
    ensures db.Valid()
    ensures db.rooms == old(db.rooms) && db.beds == old(db.beds) && db.bookings == old(db.bookings)
    ensures db.nextId == old(db.nextId)
    ensures InvalidId(id) ==> reply == Reply(400, Text("error", "Invalid or missing booking Room Id")) && unchanged(db)
    ensures !InvalidId(id) && fetchFail ==> reply == Reply(500, Text("error", "Failed to check booking beds")) && unchanged(db)
    ensures reply == Reply(500, Text("error", "Failed to delete booking beds")) <==>
      !InvalidId(id) && !fetchFail && BedsOfBookingRoom(old(db.bookingBeds), ParseInt(id).value) != [] && bedsDeleteFail
    ensures reply == Reply(500, Text("error", "Failed to delete booking beds")) ==> unchanged(db)
    ensures reply == Reply(500, Text("error", "Failed to delete booking room")) ==>
      && db.bookingRooms == old(db.bookingRooms)
      && db.bookingBeds == WithoutBedsOfBookingRoom(old(db.bookingBeds), ParseInt(id).value)
    ensures reply.status != 204 ==> db.bookingRooms == old(db.bookingRooms)
    ensures reply.status == 204 <==> !InvalidId(id) && !fetchFail && !roomDeleteFail
                                     && (BedsOfBookingRoom(old(db.bookingBeds), ParseInt(id).value) == [] || !bedsDeleteFail)
    ensures reply.status == 204 ==>
      && reply.body == NoContent
      && db.bookingBeds == WithoutBedsOfBookingRoom(old(db.bookingBeds), ParseInt(id).value)
      && db.bookingRooms == WithoutBookingRoom(old(db.bookingRooms), ParseInt(id).value)
  {
    if id == "" || ParseInt(id).None? {
      return Reply(400, Text("error", "Invalid or missing booking Room Id"));
    }
    var bookingRoomId := ParseInt(id).value;
    if fetchFail {
      return Reply(500, Text("error", "Failed to check booking beds"));
    }
    var existingBeds := BedsOfBookingRoom(db.bookingBeds, bookingRoomId);
    if |existingBeds| > 0 {
      if bedsDeleteFail {
        return Reply(500, Text("error", "Failed to delete booking beds"));
      }
      FilterKeepsPairwise(db.bookingBeds, (x: BookingBed) => x.bookingRoomId != bookingRoomId, NotOverlapping);
      db.bookingBeds := WithoutBedsOfBookingRoom(db.bookingBeds, bookingRoomId);
    } else {
      NothingToDelete(db.bookingBeds, bookingRoomId);
    }
    if roomDeleteFail {
      return Reply(500, Text("error", "Failed to delete booking room"));
    }
    db.bookingRooms := WithoutBookingRoom(db.bookingRooms, bookingRoomId);
    reply := Reply(204, NoContent);
  }

  /** When a booking room has no beds, deleting its beds would change nothing,
      so skipping the delete leaves the same table. */
  lemma {:induction false} NothingToDelete(rows: seq<BookingBed>, bookingRoomId: int)
    requires BedsOfBookingRoom(rows, bookingRoomId) == []
    ensures WithoutBedsOfBookingRoom(rows, bookingRoomId) == rows
  {
    if rows != [] {
      assert rows[0] !in BedsOfBookingRoom(rows, bookingRoomId);
      assert BedsOfBookingRoom(rows[1..], bookingRoomId) == [] by {
        forall x | x in rows[1..] ensures x.bookingRoomId != bookingRoomId {
          assert x in rows;
          assert x !in BedsOfBookingRoom(rows, bookingRoomId);
        }
      }
      NothingToDelete(rows[1..], bookingRoomId);
    }
  }
}
