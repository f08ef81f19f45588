/** `getRoomAvailabilityService`: the room availability endpoint's service. It
    checks that the four parameters are given, parses the bed count, and asks
    the availability check. */
module RoomService {
  import opened Js
  import opened Store
  import opened Availability

  const MissingParameters := Message("Missing required parameters")

  /** `parseInt(beds_required, 10)` as the number handed on: an integer, or NaN. */
  function ParsedCount(v: Value): (n: Value)
    ensures ToNumber(n) == ParseIntValue(v)
    ensures n.Num? || n == NaN
  {
    var parsed := ParseIntValue(v);
    if parsed.Some? then Num(parsed.value) else NaN
  }

  /** `getRoomAvailabilityService(room_id, check_in, check_out, beds_required,
      exclude_booking_id)`. A falsy parameter (the count 0 included) is refused
      before any query; an error of the check is thrown again with its own
      message. `exclude_booking_id` is handed to a check that takes only four
      parameters, so it is dropped. */
  function GetRoomAvailability(beds: seq<Bed>, rows: seq<BookingBed>, roomId: Value, checkIn: Value, checkOut: Value,
                               bedsRequired: Value, excludeBookingId: Value, bedsFail: bool, overlapFail: bool)
    : (r: Result<bool, Error>)
    ensures Falsy(roomId) || Falsy(checkIn) || Falsy(checkOut) || Falsy(bedsRequired) ==> r == Err(MissingParameters)
    ensures r.Err? ==> r.error == MissingParameters || r.error == BedsFetchFailed || r.error == OverlapQueryFailed
    ensures r.Err? && r.error != MissingParameters <==>
      !Falsy(roomId) && !Falsy(checkIn) && !Falsy(checkOut) && !Falsy(bedsRequired)
      && CheckAvailability(beds, rows, roomId, checkIn, checkOut, ParsedCount(bedsRequired), bedsFail, overlapFail).Err?
    ensures r == Ok(true) ==> ParseIntValue(bedsRequired).Some?
  {
    if Falsy(roomId) || Falsy(checkIn) || Falsy(checkOut) || Falsy(bedsRequired) then Err(MissingParameters)
    else
      var available := CheckAvailability(beds, rows, roomId, checkIn, checkOut, ParsedCount(bedsRequired), bedsFail, overlapFail);
      if available.Err? then Err(available.error) else available
  }

  /** With readable parameters and no database error, the answer is whether the
      room has a bed and at least as many free beds for the stay as the count
      `parseInt` reads from `beds_required`. */
  lemma AvailableIffEnoughFreeBedsForParsedCount(beds: seq<Bed>, rows: seq<BookingBed>, roomId: Value, checkIn: Value,
                                                 checkOut: Value, bedsRequired: Value, excludeBookingId: Value,
                                                 room: int, ci: int, co: int)
    requires UniqueBedIds(beds)
    requires !Falsy(roomId) && !Falsy(checkIn) && !Falsy(checkOut) && !Falsy(bedsRequired)
    requires SqlInt(roomId) == Some(room) && SqlDay(checkIn) == Some(ci) && SqlDay(checkOut) == Some(co)
    ensures GetRoomAvailability(beds, rows, roomId, checkIn, checkOut, bedsRequired, excludeBookingId, false, false)
         == Ok((exists b :: b in beds && b.roomId == room)
               && ParseIntValue(bedsRequired).Some? && |FreeBedSet(beds, rows, room, ci, co)| >= ParseIntValue(bedsRequired).value)
  {
    AvailableIffEnoughFreeBeds(beds, rows, roomId, checkIn, checkOut, ParsedCount(bedsRequired), room, ci, co);
  }

  /** Whatever booking is named for exclusion, the answer is the same: its own
      assignments still count against the room. */
  lemma ExcludedBookingIgnored(beds: seq<Bed>, rows: seq<BookingBed>, roomId: Value, checkIn: Value, checkOut: Value,
                               bedsRequired: Value, excluded: Value, other: Value, bedsFail: bool, overlapFail: bool)
    ensures GetRoomAvailability(beds, rows, roomId, checkIn, checkOut, bedsRequired, excluded, bedsFail, overlapFail)
         == GetRoomAvailability(beds, rows, roomId, checkIn, checkOut, bedsRequired, other, bedsFail, overlapFail)
  {
  }

  /** Asked for two beds in room 1 from day 8 to 10, where bed 10 is held until
      day 8: the count given as the string "2 beds" is read as 2 and granted. */
  lemma ParsedCountExample(beds: seq<Bed>, rows: seq<BookingBed>, count: Value)
    requires beds == ExampleBeds() && rows == ExampleRows() && count == Str("2 beds")
    ensures GetRoomAvailability(beds, rows, Num(1), Num(8), Num(10), count, Undefined, false, false) == Ok(true)
  {
    GivenParametersPassedOn(beds, rows, Num(1), Num(8), Num(10), count, Undefined, false, false);
    TwoBedsParsed(count);
    BackToBackExample(beds, rows);
  }

  /** Once every parameter is given, the service answers what the check answers
      for the parsed count, its errors included. */
  lemma GivenParametersPassedOn(beds: seq<Bed>, rows: seq<BookingBed>, roomId: Value, checkIn: Value, checkOut: Value,
                                bedsRequired: Value, excludeBookingId: Value, bedsFail: bool, overlapFail: bool)
    requires !Falsy(roomId) && !Falsy(checkIn) && !Falsy(checkOut) && !Falsy(bedsRequired)
    ensures GetRoomAvailability(beds, rows, roomId, checkIn, checkOut, bedsRequired, excludeBookingId, bedsFail, overlapFail)
         == CheckAvailability(beds, rows, roomId, checkIn, checkOut, ParsedCount(bedsRequired), bedsFail, overlapFail)
  {
  }

  /** `parseInt("2 beds", 10)` is 2: the digits before the first non-digit. */
  lemma TwoBedsParsed(count: Value)
    requires count == Str("2 beds")
    ensures ParsedCount(count) == Num(2)
  {
    assert SkipSpaces("2 beds") == "2 beds";
    assert Unsigned("2 beds") == "2 beds";
    assert LeadingDigits(" beds") == [];
    assert LeadingDigits("2 beds") == "2";
    assert DigitsValue("2") == DigitsValue("") * 10 + 2;
  }

  /** The count 0 as a number is falsy and refused as a missing parameter; as
      the string "0" it is a real request, granted for any room with a bed. */
  lemma ZeroCountOnlyAsString(beds: seq<Bed>, rows: seq<BookingBed>, roomId: Value, checkIn: Value, checkOut: Value,
                              excludeBookingId: Value, bedId: int, zero: Value)
    requires !Falsy(roomId) && !Falsy(checkIn) && !Falsy(checkOut)
    requires SqlInt(roomId).Some? && SqlDay(checkIn).Some? && SqlDay(checkOut).Some?
    requires Bed(bedId, SqlInt(roomId).value) in beds
    requires zero == Str("0")
    ensures GetRoomAvailability(beds, rows, roomId, checkIn, checkOut, Num(0), excludeBookingId, false, false)
         == Err(MissingParameters)
    ensures GetRoomAvailability(beds, rows, roomId, checkIn, checkOut, zero, excludeBookingId, false, false)
         == Ok(true)
  {
    var digits := zero.s;
    assert digits[..0] == [];
    DigitsRead(digits);
    assert ParsedCount(zero) == Num(0);
    GivenParametersPassedOn(beds, rows, roomId, checkIn, checkOut, zero, excludeBookingId, false, false);
    ZeroBedsFitAnyRoomWithABed(beds, rows, roomId, checkIn, checkOut, bedId);
  }

  /** A request for zero beds that reaches the check is granted for every room
      with a bed, however full it is. */
  lemma ZeroBedsFitAnyRoomWithABed(beds: seq<Bed>, rows: seq<BookingBed>, roomId: Value, checkIn: Value, checkOut: Value,
                                   bedId: int)
    requires SqlInt(roomId).Some? && SqlDay(checkIn).Some? && SqlDay(checkOut).Some?
    requires Bed(bedId, SqlInt(roomId).value) in beds
    ensures CheckAvailability(beds, rows, roomId, checkIn, checkOut, Num(0), false, false) == Ok(true)
  {
  }
}
