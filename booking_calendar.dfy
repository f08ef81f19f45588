/** `getBookingsByBedAndDateRangeService`: the bookings whose stay touches a
    date range, each with the beds assigned to it, turned into a bed × day map
    saying which booking holds which bed on which day. */
module BookingCalendar {
  import opened Js
  import opened Store

  /** A fetched booking: its id and name, its dates, and the beds of all its
      booking rooms in the order the nested select lists them. */
  datatype CalendarBooking = CalendarBooking(bookingId: Value, bookingName: Value, checkIn: int, checkOut: int, beds: seq<int>)

  /** `{ booking_id, booking_name }`, the value stored in one cell. */
  datatype Occupant = Occupant(bookingId: Value, bookingName: Value)

  /** `bookingsByBedAndDate`: bed id to day to occupant. */
  type Calendar = map<int, map<int, Occupant>>

  function OccupantOf(b: CalendarBooking): Occupant
  {
    Occupant(b.bookingId, b.bookingName)
  }

  /** `b` holds `bed` on day `d`: `d` is one of its nights and the bed is one
      of its beds. The check-out day is not a night. */
  predicate Holds(b: CalendarBooking, bed: int, d: int)
  {
    b.checkIn <= d < b.checkOut && bed in b.beds
  }

  /** The cell for `bed` and day `d` once every booking of `bs` is written:
      the last booking that holds the bed that day, since each write replaces
      the one before. */
  function Cell(bs: seq<CalendarBooking>, bed: int, d: int): Option<Occupant>
  {
    if bs == [] then None
    else if Holds(bs[|bs| - 1], bed, d) then Some(OccupantOf(bs[|bs| - 1]))
    else Cell(bs[..|bs| - 1], bed, d)
  }

  /** The cell of the map for `bed` and day `d`, when there is one. */
  function Entry(cal: Calendar, bed: int, d: int): Option<Occupant>
  {
    if bed in cal && d in cal[bed] then Some(cal[bed][d]) else None
  }

  /** The loops of the service: for each booking, for each of its nights, for
      each of its beds, set the cell, creating the bed's map on first use. */
  method BuildCalendar(bs: seq<CalendarBooking>) returns (cal: Calendar)
    ensures forall bed, d :: Entry(cal, bed, d) == Cell(bs, bed, d)
    ensures forall bed :: bed in cal ==> cal[bed] != map[]
  {
    cal := map[];
    for i := 0 to |bs|
      invariant forall bed, d :: Entry(cal, bed, d) == Cell(bs[..i], bed, d)
      invariant forall bed :: bed in cal ==> cal[bed] != map[]
    {
      var b := bs[i];
      var d := b.checkIn;
      while d < b.checkOut
        invariant b.checkIn <= d && (d == b.checkIn || d <= b.checkOut)
        invariant forall bed, day :: Entry(cal, bed, day) ==
                                     if b.checkIn <= day < d && bed in b.beds then Some(OccupantOf(b))
                                     else Cell(bs[..i], bed, day)
        invariant forall bed :: bed in cal ==> cal[bed] != map[]
        decreases b.checkOut - d
      {
        for k := 0 to |b.beds|
          invariant forall bed, day :: Entry(cal, bed, day) ==
                                       if (b.checkIn <= day < d && bed in b.beds) || (day == d && bed in b.beds[..k])
                                       then Some(OccupantOf(b))
                                       else Cell(bs[..i], bed, day)
          invariant forall bed :: bed in cal ==> cal[bed] != map[]
        {
          var bed := b.beds[k];
          assert b.beds[..k + 1] == b.beds[..k] + [bed];
          var row := if bed in cal then cal[bed] else map[];
          ghost var before := cal;
          cal := cal[bed := row[d := OccupantOf(b)]];
          assert d in cal[bed];
          forall x, day | x != bed || day != d ensures Entry(cal, x, day) == Entry(before, x, day) {
          }
        }
        assert b.beds[..|b.beds|] == b.beds;
        d := d + 1;
      }
      assert bs[..i + 1][..i] == bs[..i];
    }
    assert bs[..|bs|] == bs;
  }

  /** A cell is set exactly when some booking holds that bed on that day. */
  lemma {:induction false} CellIffHeld(bs: seq<CalendarBooking>, bed: int, d: int)
    ensures Cell(bs, bed, d).Some? <==> exists j :: 0 <= j < |bs| && Holds(bs[j], bed, d)
  {
    if bs != [] {
      var init := bs[..|bs| - 1];
      CellIffHeld(init, bed, d);
      if exists j :: 0 <= j < |init| && Holds(init[j], bed, d) {
        var j :| 0 <= j < |init| && Holds(init[j], bed, d);
        assert bs[j] == init[j];
      }
      if exists j :: 0 <= j < |bs| && Holds(bs[j], bed, d) {
        var j :| 0 <= j < |bs| && Holds(bs[j], bed, d);
        if j < |init| {
          assert init[j] == bs[j];
        }
      }
    }
  }

  /** Of several bookings holding a bed on a day, the one listed last is shown. */
  lemma {:induction false} LastHolderWins(bs: seq<CalendarBooking>, bed: int, d: int, j: nat)
    requires j < |bs| && Holds(bs[j], bed, d)
    requires forall k :: j < k < |bs| ==> !Holds(bs[k], bed, d)
    ensures Cell(bs, bed, d) == Some(OccupantOf(bs[j]))
  {
    if j < |bs| - 1 {
      var init := bs[..|bs| - 1];
      assert init[j] == bs[j];
      forall k | j < k < |init| ensures !Holds(init[k], bed, d) {
        assert init[k] == bs[k];
      }
      LastHolderWins(init, bed, d, j);
    }
  }

  /** The fetch filter `check_in <= endDate and check_out >= startDate`, both
      bounds inclusive; a row whose dates cannot be read never matches. */
  predicate Touches(row: Record, start: int, end: int)
  {
    var checkIn, checkOut := SqlDay(Get(row, "check_in")), SqlDay(Get(row, "check_out"));
    checkIn.Some? && checkOut.Some? && checkIn.value <= end && checkOut.value >= start
  }

  /** The `booking_beds` of one booking room, in table order. */
  function RoomBeds(rows: seq<BookingBed>, bookingRoomId: int): (ids: seq<int>)
    ensures forall bed :: bed in ids <==> exists bb :: bb in rows && bb.bookingRoomId == bookingRoomId && bb.bedId == bed
  {
    if rows == [] then []
    else
      var rest := RoomBeds(rows[1..], bookingRoomId);
      assert forall bb :: bb in rows <==> bb == rows[0] || bb in rows[1..];
      (if rows[0].bookingRoomId == bookingRoomId then [rows[0].bedId] else []) + rest
  }

  /** The beds of all booking rooms of a booking, booking room by booking room. */
  function BookingBeds(rooms: seq<BookingRoom>, rows: seq<BookingBed>, id: Value): (ids: seq<int>)
    ensures forall bed :: bed in ids <==>
      exists r :: r in rooms && Num(r.bookingId) == id && bed in RoomBeds(rows, r.bookingRoomId)
  {
    if rooms == [] then []
    else
      var rest := BookingBeds(rooms[1..], rows, id);
      assert forall r :: r in rooms <==> r == rooms[0] || r in rooms[1..];
      (if Num(rooms[0].bookingId) == id then RoomBeds(rows, rooms[0].bookingRoomId) else []) + rest
  }

  /** One fetched row with its nested booking rooms and beds. */
  function CalendarRow(row: Record, rooms: seq<BookingRoom>, rows: seq<BookingBed>, start: int, end: int): CalendarBooking
    requires Touches(row, start, end)
  {
    var id := Get(row, "booking_id");
    CalendarBooking(id, Get(row, "booking_name"), SqlDay(Get(row, "check_in")).value, SqlDay(Get(row, "check_out")).value,
                    BookingBeds(rooms, rows, id))
  }

  /** The select of the service: the bookings rows the filter lets through, in
      table order, each with its beds. */
  function Fetch(bookings: seq<Record>, rooms: seq<BookingRoom>, rows: seq<BookingBed>, start: int, end: int)
    : (bs: seq<CalendarBooking>)
    ensures |bs| <= |bookings|
    ensures forall row :: row in bookings && Touches(row, start, end) ==> CalendarRow(row, rooms, rows, start, end) in bs
    ensures forall b :: b in bs ==>
      exists row :: row in bookings && Touches(row, start, end) && b == CalendarRow(row, rooms, rows, start, end)
  {
    var touching := Filter(bookings, (row: Record) => Touches(row, start, end));
    assert forall i :: 0 <= i < |touching| ==> touching[i] in touching;
    var bs := seq(|touching|, i requires 0 <= i < |touching| => CalendarRow(touching[i], rooms, rows, start, end));
    assert forall row :: row in bookings && Touches(row, start, end) ==> CalendarRow(row, rooms, rows, start, end) in bs by {
      forall row | row in bookings && Touches(row, start, end) ensures CalendarRow(row, rooms, rows, start, end) in bs {
        var i :| 0 <= i < |touching| && touching[i] == row;
        assert bs[i] == CalendarRow(row, rooms, rows, start, end);
      }
    }
    bs
  }

  /** `getBookingsByBedAndDateRangeService(startDate, endDate)`: reads the
      tables, changes nothing. A failed select, or a bound the database cannot
      read as a date, throws. */
  method GetBookingsByBedAndDateRange(db: Db, startDate: Value, endDate: Value, fetchFail: bool)
    returns (res: Result<Calendar, Error>)
    ensures res.Err? <==> fetchFail || SqlDay(startDate).None? || SqlDay(endDate).None?
    ensures res.Err? ==> res.error == StoreFailure
    ensures res.Ok? ==>
      var fetched := Fetch(db.bookings, db.bookingRooms, db.bookingBeds, SqlDay(startDate).value, SqlDay(endDate).value);
      forall bed, d :: Entry(res.value, bed, d) == Cell(fetched, bed, d)
    ensures res.Ok? ==> forall bed :: bed in res.value ==> res.value[bed] != map[]
  {
    if fetchFail || SqlDay(startDate).None? || SqlDay(endDate).None? {
      return Err(StoreFailure);
    }
    var fetched := Fetch(db.bookings, db.bookingRooms, db.bookingBeds, SqlDay(startDate).value, SqlDay(endDate).value);
    var cal := BuildCalendar(fetched);
    res := Ok(cal);
  }

  /** One booking of nights 5 to 7 (check-out 8) holding bed 10. */
  function ExampleBookings(): seq<Record>
  {
    [map["booking_id" := Num(1), "booking_name" := Str("Asha"), "check_in" := Num(5), "check_out" := Num(8)]]
  }

  function ExampleRooms(): seq<BookingRoom>
  {
    [BookingRoom(2, 1, 1, Num(1))]
  }

  function ExampleBeds(): seq<BookingBed>
  {
    [BookingBed(1, 2, 10, 5, 8)]
  }

  /** A range starting on the check-out day still fetches the booking (the
      filter is inclusive), yet its check-out day holds nothing; the nights
      before the range are shown, not clipped. */
  lemma CheckOutDayExample()
    ensures var fetched := Fetch(ExampleBookings(), ExampleRooms(), ExampleBeds(), 8, 9);
      && |fetched| == 1
      && Cell(fetched, 10, 7) == Some(Occupant(Num(1), Str("Asha")))
      && Cell(fetched, 10, 8) == None
  {
    var row := ExampleBookings()[0];
    assert Touches(row, 8, 9);
    var fetched := Fetch(ExampleBookings(), ExampleRooms(), ExampleBeds(), 8, 9);
    assert Filter(ExampleBookings(), (r: Record) => Touches(r, 8, 9)) == [row];
    assert RoomBeds(ExampleBeds(), 2) == [10];
    assert BookingBeds(ExampleRooms(), ExampleBeds(), Num(1)) == [10];
    assert fetched == [CalendarBooking(Num(1), Str("Asha"), 5, 8, [10])];
  }
}
