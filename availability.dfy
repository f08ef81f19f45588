/** `checkAvailability`: a room has room for a stay when the number of its beds
    that no assignment overlaps reaches the number of beds required. Two
    queries: the room's beds, then the assignments of those beds whose stay
    overlaps [check_in, check_out). Nothing is written. */
module Availability {
  import opened Js
  import opened Store

  const BedsFetchFailed := Message("Failed to fetch beds.")
  const OverlapQueryFailed := Message("Error checking availability.")

  /** `checkAvailability(room_id, check_in, check_out, beds_required)` over the
      `beds` and `booking_beds` tables. `bedsFail` and `overlapFail` say whether
      the database reports an error for the first and the second query. The
      comparison `availableBeds.length >= beds_required` converts the required
      count with `Number()`, so NaN never compares true. */
  function CheckAvailability(beds: seq<Bed>, rows: seq<BookingBed>, roomId: Value, checkIn: Value, checkOut: Value,
                             bedsRequired: Value, bedsFail: bool, overlapFail: bool): (r: Result<bool, Error>)
    ensures r.Err? ==> r.error == BedsFetchFailed || r.error == OverlapQueryFailed
    ensures bedsFail ==> r == Err(BedsFetchFailed)
    ensures r.Err? <==> bedsFail || SqlInt(roomId).None?
                        || ((exists b :: b in beds && b.roomId == SqlInt(roomId).value)
                            && (overlapFail || SqlDay(checkIn).None? || SqlDay(checkOut).None?))
    ensures r == Ok(true) ==> ToNumber(bedsRequired).Some?
  {
    if bedsFail || SqlInt(roomId).None? then Err(BedsFetchFailed)
    else
      var room := SqlInt(roomId).value;
      var bedIds := BedsOfRoom(beds, room);
      if bedIds == [] then
        assert forall b :: b in beds ==> b.roomId != room by {
          forall b | b in beds ensures b.roomId != room {
            assert b == Bed(b.bedId, b.roomId);
          }
        }
        Ok(false)
      else if overlapFail || SqlDay(checkIn).None? || SqlDay(checkOut).None? then
        assert Bed(bedIds[0], room) in beds;
        Err(OverlapQueryFailed)
      else
        assert Bed(bedIds[0], room) in beds;
        var free := FreeBeds(beds, rows, room, SqlDay(checkIn).value, SqlDay(checkOut).value);
        Ok(AtLeast(|free|, ToNumber(bedsRequired)))
  }

  /** The answer, when both queries succeed: true exactly when the room has a bed
      and the number of its beds that no assignment overlaps is at least the
      required count. */
  lemma AvailableIffEnoughFreeBeds(beds: seq<Bed>, rows: seq<BookingBed>, roomId: Value, checkIn: Value, checkOut: Value,
                                   bedsRequired: Value, room: int, ci: int, co: int)
    requires UniqueBedIds(beds)
    requires SqlInt(roomId) == Some(room) && SqlDay(checkIn) == Some(ci) && SqlDay(checkOut) == Some(co)
    ensures CheckAvailability(beds, rows, roomId, checkIn, checkOut, bedsRequired, false, false) ==
            Ok((exists b :: b in beds && b.roomId == room) && AtLeast(|FreeBedSet(beds, rows, room, ci, co)|, ToNumber(bedsRequired)))
  {
    FreeBedsCount(beds, rows, room, ci, co);
    if BedsOfRoom(beds, room) != [] {
      var id := BedsOfRoom(beds, room)[0];
      assert Bed(id, room) in beds;
    }
  }

  /** A room without beds is never available, whatever is required (0 included)
      and whether or not the overlap query would fail: it is never issued. */
  lemma RoomWithoutBedsNeverAvailable(beds: seq<Bed>, rows: seq<BookingBed>, roomId: Value, checkIn: Value, checkOut: Value,
                                      bedsRequired: Value, overlapFail: bool, room: int)
    requires SqlInt(roomId) == Some(room)
    requires forall b :: b in beds ==> b.roomId != room
    ensures CheckAvailability(beds, rows, roomId, checkIn, checkOut, bedsRequired, false, overlapFail) == Ok(false)
  {
    assert forall id :: Bed(id, room) !in beds;
  }

  /** Half-open stays: an assignment conflicts with a stay exactly when the two
      share a night, for stays of at least one night. */
  lemma ConflictIffSharedNight(row: BookingBed, ci: int, co: int)
    requires row.checkIn < row.checkOut && ci < co
    ensures Conflicts(row, ci, co) <==> exists night :: Stays(row.checkIn, row.checkOut, night) && Stays(ci, co, night)
  {
    if Conflicts(row, ci, co) {
      var night := if row.checkIn < ci then ci else row.checkIn;
      assert Stays(row.checkIn, row.checkOut, night) && Stays(ci, co, night);
    }
  }

  /** The guest of a stay [checkIn, checkOut) sleeps there on `night`. */
  predicate Stays(checkIn: int, checkOut: int, night: int)
  {
    checkIn <= night < checkOut
  }

  /** Assignments that cannot conflict with the stay (another room's beds, a stay
      ending on the check-in day or starting on the check-out day) never change
      the answer. */
  lemma {:induction false} IrrelevantRowsIgnored(beds: seq<Bed>, rows: seq<BookingBed>, extra: seq<BookingBed>,
                                                 roomId: Value, checkIn: Value, checkOut: Value, bedsRequired: Value,
                                                 bedsFail: bool, overlapFail: bool)
    requires forall x :: x in extra ==>
      SqlInt(roomId).None? || SqlDay(checkIn).None? || SqlDay(checkOut).None?
      || Bed(x.bedId, SqlInt(roomId).value) !in beds
      || !Conflicts(x, SqlDay(checkIn).value, SqlDay(checkOut).value)
    ensures CheckAvailability(beds, rows + extra, roomId, checkIn, checkOut, bedsRequired, bedsFail, overlapFail)
         == CheckAvailability(beds, rows, roomId, checkIn, checkOut, bedsRequired, bedsFail, overlapFail)
  {
    if SqlInt(roomId).Some? && SqlDay(checkIn).Some? && SqlDay(checkOut).Some? {
      var room, ci, co := SqlInt(roomId).value, SqlDay(checkIn).value, SqlDay(checkOut).value;
      var ids := BedsOfRoom(beds, room);
      forall id | id in ids ensures Occupied(rows + extra, id, ci, co) == Occupied(rows, id, ci, co) {
        if Occupied(rows + extra, id, ci, co) {
          var x :| x in rows + extra && x.bedId == id && Conflicts(x, ci, co);
          assert x in rows;
        }
      }
      FilterCongruent(ids, id => !Occupied(rows + extra, id, ci, co), id => !Occupied(rows, id, ci, co));
    }
  }

  /** Another assignment can only take beds away: whatever is available with it
      was available without it. */
  lemma MoreAssignmentsNeverHelp(beds: seq<Bed>, rows: seq<BookingBed>, extra: seq<BookingBed>,
                                 roomId: Value, checkIn: Value, checkOut: Value, bedsRequired: Value)
    requires UniqueBedIds(beds)
    requires CheckAvailability(beds, rows + extra, roomId, checkIn, checkOut, bedsRequired, false, false) == Ok(true)
    ensures CheckAvailability(beds, rows, roomId, checkIn, checkOut, bedsRequired, false, false) == Ok(true)
  {
    var room, ci, co := SqlInt(roomId).value, SqlDay(checkIn).value, SqlDay(checkOut).value;
    AvailableIffEnoughFreeBeds(beds, rows + extra, roomId, checkIn, checkOut, bedsRequired, room, ci, co);
    AvailableIffEnoughFreeBeds(beds, rows, roomId, checkIn, checkOut, bedsRequired, room, ci, co);
    var fewer := FreeBedSet(beds, rows + extra, room, ci, co);
    var more := FreeBedSet(beds, rows, room, ci, co);
    assert fewer <= more by {
      forall id | id in fewer ensures id in more {
        var b :| b in beds && b.roomId == room && !Occupied(rows + extra, b.bedId, ci, co) && b.bedId == id;
        assert !Occupied(rows, b.bedId, ci, co);
      }
    }
    assert more == fewer + (more - fewer);
  }

  /** Room 1 has beds 10 and 11; bed 10 is held for nights 5 to 7 (check-out 8). */
  function ExampleBeds(): seq<Bed>
  {
    [Bed(10, 1), Bed(11, 1), Bed(20, 2)]
  }

  function ExampleRows(): seq<BookingBed>
  {
    [BookingBed(1, 1, 10, 5, 8)]
  }

  /** A stay checking in on the day the other one checks out gets both beds. */
  lemma BackToBackExample(beds: seq<Bed>, rows: seq<BookingBed>)
    requires beds == ExampleBeds() && rows == ExampleRows()
    ensures CheckAvailability(beds, rows, Num(1), Num(8), Num(10), Num(2), false, false) == Ok(true)
  {
    RoomOneAnswer(beds, rows, 8, 10, Num(2));
    BackToBackFreeBeds(beds, rows);
  }

  /** From check-out day 8 on, both beds of room 1 are free. */
  lemma BackToBackFreeBeds(beds: seq<Bed>, rows: seq<BookingBed>)
    requires beds == ExampleBeds() && rows == ExampleRows()
    ensures FreeBeds(beds, rows, 1, 8, 10) == [10, 11]
  {
    RoomOneBeds();
    assert !Occupied(rows, 10, 8, 10) && !Occupied(rows, 11, 8, 10) by {
      forall row | row in rows ensures !Conflicts(row, 8, 10) {
        assert row == rows[0];
      }
    }
    var p := id => !Occupied(rows, id, 8, 10);
    assert Filter([11], p) == [11];
    assert [10, 11][1..] == [11];
    assert Filter([10, 11], p) == [10, 11];
  }

  /** Once the room's beds are known to be there and both queries succeed, the
      answer is the comparison of the free-bed count with the count required. */
  lemma AnswerFromFreeBeds(beds: seq<Bed>, rows: seq<BookingBed>, roomId: Value, checkIn: Value, checkOut: Value,
                           bedsRequired: Value)
    requires SqlInt(roomId).Some? && SqlDay(checkIn).Some? && SqlDay(checkOut).Some?
    requires BedsOfRoom(beds, SqlInt(roomId).value) != []
    ensures CheckAvailability(beds, rows, roomId, checkIn, checkOut, bedsRequired, false, false)
         == Ok(AtLeast(|FreeBeds(beds, rows, SqlInt(roomId).value, SqlDay(checkIn).value, SqlDay(checkOut).value)|,
                       ToNumber(bedsRequired)))
  {
  }

  /** Room 1 of the example has beds 10 and 11, in that order. */
  lemma RoomOneBeds()
    ensures BedsOfRoom(ExampleBeds(), 1) == [10, 11]
  {
    var beds := ExampleBeds();
    assert beds[1..] == [Bed(11, 1), Bed(20, 2)];
    assert beds[1..][1..] == [Bed(20, 2)];
    assert BedsOfRoom([Bed(20, 2)], 1) == [] by {
      assert [Bed(20, 2)][1..] == [];
    }
  }

  /** Any stay in room 1 of the example is answered by its free-bed count. */
  lemma RoomOneAnswer(beds: seq<Bed>, rows: seq<BookingBed>, checkIn: int, checkOut: int, bedsRequired: Value)
    requires beds == ExampleBeds()
    ensures CheckAvailability(beds, rows, Num(1), Num(checkIn), Num(checkOut), bedsRequired, false, false)
         == Ok(AtLeast(|FreeBeds(beds, rows, 1, checkIn, checkOut)|, ToNumber(bedsRequired)))
  {
    RoomOneBeds();
    AnswerFromFreeBeds(beds, rows, Num(1), Num(checkIn), Num(checkOut), bedsRequired);
  }

  /** An overlapping stay gets only the free bed: two are refused, one (even
      asked for as the string "1") is granted. */
  lemma OverlapExample(beds: seq<Bed>, rows: seq<BookingBed>, one: Value)
    requires beds == ExampleBeds() && rows == ExampleRows() && one == Str("1")
    ensures CheckAvailability(beds, rows, Num(1), Num(6), Num(9), Num(2), false, false) == Ok(false)
    ensures CheckAvailability(beds, rows, Num(1), Num(6), Num(9), one, false, false) == Ok(true)
  {
    RoomOneAnswer(beds, rows, 6, 9, Num(2));
    RoomOneAnswer(beds, rows, 6, 9, one);
    OverlapFreeBeds(beds, rows);
    OneAsString(one);
  }

  /** `Number("1")` is 1. */
  lemma OneAsString(one: Value)
    requires one == Str("1")
    ensures ToNumber(one) == Some(1)
  {
    var digits := one.s;
    assert digits[..0] == [];
    DigitsRead(digits);
  }

  /** For nights 6 to 8 bed 10 is taken and bed 11 is the one free bed of room 1. */
  lemma OverlapFreeBeds(beds: seq<Bed>, rows: seq<BookingBed>)
    requires beds == ExampleBeds() && rows == ExampleRows()
    ensures FreeBeds(beds, rows, 1, 6, 9) == [11]
  {
    RoomOneBeds();
    assert Occupied(rows, 10, 6, 9) by {
      assert rows[0] in rows;
    }
    assert !Occupied(rows, 11, 6, 9) by {
      forall row | row in rows ensures row.bedId != 11 {
        assert row == rows[0];
      }
    }
    var p := id => !Occupied(rows, id, 6, 9);
    assert Filter([11], p) == [11];
    assert [10, 11][1..] == [11];
    assert Filter([10, 11], p) == [11];
  }
}
