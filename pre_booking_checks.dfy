/** `preBookingChecks`: validate a booking request, then check every room of
    `guests_per_room` for enough free beds, before anything is written. The
    first failure is thrown; the tables are only read. */
module PreBookingChecks {
  import opened Js
  import opened Store
  import opened Validation
  import opened Availability

  /** `parseInt(roomId)` of an object key, as the value passed on to the
      availability check. */
  function RoomIdValue(key: string): Value
  {
    var n := ParseInt(key);
    if n.Some? then Num(n.value) else NaN
  }

  /** `room?.room_name || \`Room ${roomId}\``: the name of the one room whose id
      is the key, when the lookup succeeds and the name is truthy. `.single()`
      yields no room unless exactly one row matches. */
  function RoomLabelOf(rooms: seq<Room>, key: string, lookupFail: bool): (shown: RoomLabel)
    ensures shown.RoomName? ==> !Falsy(shown.name) && exists room :: room in rooms && room.roomName == shown.name
  {
    var id := SqlInt(Str(key));
    if lookupFail || id.None? then RoomNumber(key)
    else
      var matching := Filter(rooms, (room: Room) => room.roomId == id.value);
      if |matching| != 1 || Falsy(matching[0].roomName) then RoomNumber(key)
      else
        assert matching[0] in matching;
        RoomName(matching[0].roomName)
  }

  /** One iteration of the loop: the availability check of one room, and the
      error naming the room when it has too few beds. */
  function RoomCheck(beds: seq<Bed>, rows: seq<BookingBed>, rooms: seq<Room>, data: Record, room: Entry,
                     bedsFail: bool, overlapFail: bool, lookupFail: bool): Outcome<Error>
  {
    var available := CheckAvailability(beds, rows, RoomIdValue(room.key), Get(data, "check_in"), Get(data, "check_out"),
                                       room.value, bedsFail, overlapFail);
    if available.Err? then Fail(available.error)
    else if !available.value then Fail(RoomUnavailable(RoomLabelOf(rooms, room.key, lookupFail), room.value))
    else Pass
  }

  /** The outcome of the loop body for each room of the request, in the
      object's key order; the i-th room's queries fail as the i-th flags say. */
  function RoomOutcomes(beds: seq<Bed>, rows: seq<BookingBed>, rooms: seq<Room>, data: Record, entries: seq<Entry>,
                        bedsFails: seq<bool>, overlapFails: seq<bool>, lookupFails: seq<bool>): (os: seq<Outcome<Error>>)
    ensures |os| == |entries|
    ensures forall j :: 0 <= j < |entries| ==>
      os[j] == RoomCheck(beds, rows, rooms, data, entries[j], Flag(bedsFails, j), Flag(overlapFails, j), Flag(lookupFails, j))
  {
    seq(|entries|, j requires 0 <= j < |entries| =>
      RoomCheck(beds, rows, rooms, data, entries[j], Flag(bedsFails, j), Flag(overlapFails, j), Flag(lookupFails, j)))
  }

  /** The rooms of the request, as `for (const roomId in guests_per_room)` visits them. */
  function RoomEntries(data: Record): seq<Entry>
  {
    var rooms := Get(data, "guests_per_room");
    if rooms.Obj? then rooms.entries else []
  }

  /** What `preBookingChecks` does: the validation message, else the first
      failing room, else success. */
  function PreBookingCheck(beds: seq<Bed>, rows: seq<BookingBed>, rooms: seq<Room>, data: Record,
                           bedsFails: seq<bool>, overlapFails: seq<bool>, lookupFails: seq<bool>): Outcome<Error>
  {
    var invalid := Validate(data);
    if invalid.Some? then Fail(Message(invalid.value.Text()))
    else FirstFailure(RoomOutcomes(beds, rows, rooms, data, RoomEntries(data), bedsFails, overlapFails, lookupFails), 0)
  }

  /** `preBookingChecks(bookingData)`: reads the tables, changes nothing. The
      i-th room's queries fail as the i-th entries of the flag lists say. */
  method PreBookingChecks(db: Db, data: Record, bedsFails: seq<bool>, overlapFails: seq<bool>, lookupFails: seq<bool>)
    returns (res: Outcome<Error>)
    ensures res == PreBookingCheck(db.beds, db.bookingBeds, db.rooms, data, bedsFails, overlapFails, lookupFails)
  {
    var invalid := ValidateBookingData(data);
    if invalid.Some? {
      return Fail(Message(invalid.value.Text()));
    }
    var entries := RoomEntries(data);
    ghost var outcomes := RoomOutcomes(db.beds, db.bookingBeds, db.rooms, data, entries, bedsFails, overlapFails, lookupFails);
    var i := 0;
    while i < |entries|
      invariant 0 <= i <= |entries|
      invariant FirstFailure(outcomes, 0) == FirstFailure(outcomes, i)
    {
      var room := entries[i];
      var available := CheckAvailability(db.beds, db.bookingBeds, RoomIdValue(room.key), Get(data, "check_in"),
                                         Get(data, "check_out"), room.value, Flag(bedsFails, i), Flag(overlapFails, i));
      if available.Err? {
        return Fail(available.error);
      }
      if !available.value {
        return Fail(RoomUnavailable(RoomLabelOf(db.rooms, room.key, Flag(lookupFails, i)), room.value));
      }
      i := i + 1;
    }
    res := Pass;
  }

  /** A validation error is thrown with the validator's message, whatever the
      tables hold and whatever the queries would do: none is issued. */
  lemma ValidationComesFirst(beds: seq<Bed>, rows: seq<BookingBed>, rooms: seq<Room>, data: Record,
                             bedsFails: seq<bool>, overlapFails: seq<bool>, lookupFails: seq<bool>)
    requires Validate(data).Some?
    ensures PreBookingCheck(beds, rows, rooms, data, bedsFails, overlapFails, lookupFails)
         == Fail(Message(Validate(data).value.Text()))
  {
  }

  /** Success means the request is valid and every room in `guests_per_room`
      has a bed, and at least as many free beds for the stay as the count asked
      for it. */
  lemma SuccessMeansEveryRoomHasEnoughBeds(beds: seq<Bed>, rows: seq<BookingBed>, rooms: seq<Room>, data: Record,
                                           bedsFails: seq<bool>, overlapFails: seq<bool>, lookupFails: seq<bool>, j: nat)
    requires UniqueBedIds(beds)
    requires PreBookingCheck(beds, rows, rooms, data, bedsFails, overlapFails, lookupFails) == Pass
    requires j < |RoomEntries(data)|
    ensures Validate(data).None?
    ensures var room := RoomEntries(data)[j];
      && ParseInt(room.key).Some?
      && SqlDay(Get(data, "check_in")).Some? && SqlDay(Get(data, "check_out")).Some?
      && (exists b :: b in beds && b.roomId == ParseInt(room.key).value)
      && AtLeast(|FreeBedSet(beds, rows, ParseInt(room.key).value, SqlDay(Get(data, "check_in")).value,
                             SqlDay(Get(data, "check_out")).value)|, ToNumber(room.value))
  {
    var entries := RoomEntries(data);
    var room := entries[j];
    var checkIn, checkOut := Get(data, "check_in"), Get(data, "check_out");
    var available := CheckAvailability(beds, rows, RoomIdValue(room.key), checkIn, checkOut, room.value,
                                       Flag(bedsFails, j), Flag(overlapFails, j));
    assert available == Ok(true);
    AvailableIffEnoughFreeBeds(beds, rows, RoomIdValue(room.key), checkIn, checkOut, room.value,
                               ParseInt(room.key).value, SqlDay(checkIn).value, SqlDay(checkOut).value);
  }

  /** The message of an unavailable room names it by its `room_name` when that
      is set, else as "Room <key>", with the count asked for. */
  lemma UnavailableRoomNamed(beds: seq<Bed>, rows: seq<BookingBed>, rooms: seq<Room>, data: Record, room: Entry,
                             bedsFail: bool, overlapFail: bool, r: Room)
    requires UniqueRoomIds(rooms) && r in rooms && SqlInt(Str(room.key)) == Some(r.roomId)
    requires CheckAvailability(beds, rows, RoomIdValue(room.key), Get(data, "check_in"), Get(data, "check_out"),
                               room.value, bedsFail, overlapFail) == Ok(false)
    ensures RoomCheck(beds, rows, rooms, data, room, bedsFail, overlapFail, true) == Fail(RoomUnavailable(RoomNumber(room.key), room.value))
    ensures RoomCheck(beds, rows, rooms, data, room, bedsFail, overlapFail, false)
         == Fail(RoomUnavailable(if Falsy(r.roomName) then RoomNumber(room.key) else RoomName(r.roomName), room.value))
  {
    OnlyMatch(rooms, r);
  }

  /** Filtering a table by the id of one of its rows yields that row, when ids
      are keys. */
  lemma {:induction false} OnlyMatch(rooms: seq<Room>, r: Room)
    requires UniqueRoomIds(rooms) && r in rooms
    ensures Filter(rooms, (x: Room) => x.roomId == r.roomId) == [r]
  {
    var p := (x: Room) => x.roomId == r.roomId;
    var tail := rooms[1..];
    if rooms[0] == r {
      forall x | x in tail ensures !p(x) {
        var k :| 0 <= k < |tail| && tail[k] == x;
        assert DifferentRooms(rooms[0], rooms[k + 1]);
      }
      FilterNone(tail, p);
    } else {
      assert UniqueRoomIds(tail) by {
        forall i, j | 0 <= i < j < |tail| ensures DifferentRooms(tail[i], tail[j]) {
          assert tail[i] == rooms[i + 1] && tail[j] == rooms[j + 1];
        }
      }
      assert p(rooms[0]) == false by {
        var k :| 0 <= k < |rooms| && rooms[k] == r;
        assert DifferentRooms(rooms[0], rooms[k]);
      }
      OnlyMatch(tail, r);
    }
  }
}
