/** The tables of the hostel database that the booking engine reads and writes,
    held in memory, and the filters its queries apply to them.

    Every query or write of the engine may fail; the operations that issue one
    take a flag per call saying whether the database reports an error for it. */
module Store {
  import opened Js

  datatype Room = Room(roomId: int, roomName: Value, capacity: Value)

  datatype Bed = Bed(bedId: int, roomId: int)

  datatype BookingRoom = BookingRoom(bookingRoomId: int, bookingId: int, roomId: int, numberOfGuests: Value)

  /** One bed held for one booking over the nights [checkIn, checkOut); dates are day numbers. */
  datatype BookingBed = BookingBed(bookingId: int, bookingRoomId: int, bedId: int, checkIn: int, checkOut: int)

  /** How a room is named in an error message: its `room_name`, or `Room <id>`. */
  datatype RoomLabel = RoomName(name: Value) | RoomNumber(key: string)

  /** The errors the engine throws. `Message` is `new Error(text)` with a fixed
      text; `StoreFailure` re-throws the database's own message. */
  datatype Error =
    | Message(text: string)
    | StoreFailure
    | RoomUnavailable(room: RoomLabel, bedsRequired: Value)
    | ReferenceError(name: string)

  /** The integer the database reads from a filter value on an integer column;
      None when it rejects the value (`undefined`, `null`, NaN, a non-numeric
      string), which makes the query fail. */
  function SqlInt(v: Value): Option<int>
  {
    match v
    case Num(n) => Some(n)
    case Str(s) => DecimalLiteral(s)
    case _ => None
  }

  /** The day the database reads from a filter value on a date column; dates
      are day numbers here, and any other value makes the query fail. */
  function SqlDay(v: Value): Option<int>
  {
    match v
    case Num(d) => Some(d)
    case _ => None
  }

  /** Whether the i-th call of a repeated query fails, from a list of per-call
      failures (calls beyond the list succeed). */
  predicate Flag(fails: seq<bool>, i: nat)
  {
    i < |fails| && fails[i]
  }

  /** The overlap filter of the availability queries: the row's stay ends after
      `checkIn` and starts before `checkOut` (half-open intervals). */
  predicate Conflicts(row: BookingBed, checkIn: int, checkOut: int)
  {
    row.checkOut > checkIn && row.checkIn < checkOut
  }

  predicate Overlap(a: BookingBed, b: BookingBed)
  {
    a.bedId == b.bedId && Conflicts(a, b.checkIn, b.checkOut)
  }

  predicate NotOverlapping(a: BookingBed, b: BookingBed)
  {
    !Overlap(a, b)
  }

  /** No two assignments hold the same bed for overlapping stays. */
  ghost predicate NoDoubleBooking(rows: seq<BookingBed>)
  {
    Pairwise(rows, NotOverlapping)
  }

  predicate DifferentBeds(a: Bed, b: Bed)
  {
    a.bedId != b.bedId
  }

  /** `bed_id` is the key of the beds table. */
  ghost predicate UniqueBedIds(beds: seq<Bed>)
  {
    Pairwise(beds, DifferentBeds)
  }

  predicate DifferentRooms(a: Room, b: Room)
  {
    a.roomId != b.roomId
  }

  /** `room_id` is the key of the rooms table. */
  ghost predicate UniqueRoomIds(rooms: seq<Room>)
  {
    Pairwise(rooms, DifferentRooms)
  }

  predicate Differ(a: int, b: int)
  {
    a != b
  }

  ghost predicate Distinct(ids: seq<int>)
  {
    Pairwise(ids, Differ)
  }

  /** `select bed_id from beds where room_id = roomId`, in table order. */
  function BedsOfRoom(beds: seq<Bed>, roomId: int): (ids: seq<int>)
    ensures forall id :: id in ids <==> Bed(id, roomId) in beds
  {
    if beds == [] then []
    else (if beds[0].roomId == roomId then [beds[0].bedId] else []) + BedsOfRoom(beds[1..], roomId)
  }

  /** Some assignment of bed `bedId` conflicts with the stay [checkIn, checkOut). */
  predicate Occupied(rows: seq<BookingBed>, bedId: int, checkIn: int, checkOut: int)
  {
    exists row :: row in rows && row.bedId == bedId && Conflicts(row, checkIn, checkOut)
  }

  /** The beds of the room, in table order, that no assignment conflicts with. */
  function FreeBeds(beds: seq<Bed>, rows: seq<BookingBed>, roomId: int, checkIn: int, checkOut: int): (free: seq<int>)
    ensures forall id :: id in free <==> Bed(id, roomId) in beds && !Occupied(rows, id, checkIn, checkOut)
  {
    Filter(BedsOfRoom(beds, roomId), id => !Occupied(rows, id, checkIn, checkOut))
  }

  lemma {:induction false} BedsOfRoomDistinct(beds: seq<Bed>, roomId: int)
    requires UniqueBedIds(beds)
    ensures Distinct(BedsOfRoom(beds, roomId))
  {
    if beds != [] {
      var tail := beds[1..];
      assert UniqueBedIds(tail) by {
        forall i, j | 0 <= i < j < |tail| ensures DifferentBeds(tail[i], tail[j]) {
          assert tail[i] == beds[i + 1] && tail[j] == beds[j + 1];
        }
      }
      BedsOfRoomDistinct(tail, roomId);
      var rest := BedsOfRoom(tail, roomId);
      if beds[0].roomId == roomId {
        forall y | y in rest ensures Differ(beds[0].bedId, y) {
          assert Bed(y, roomId) in tail;
          var k :| 0 <= k < |tail| && tail[k] == Bed(y, roomId);
          assert beds[k + 1] == tail[k];
        }
        PairwiseCons(beds[0].bedId, rest, Differ);
      } else {
        assert BedsOfRoom(beds, roomId) == rest;
      }
    }
  }

  /** The free beds of a room are distinct when bed ids are. */
  lemma FreeBedsDistinct(beds: seq<Bed>, rows: seq<BookingBed>, roomId: int, checkIn: int, checkOut: int)
    requires UniqueBedIds(beds)
    ensures Distinct(FreeBeds(beds, rows, roomId, checkIn, checkOut))
  {
    BedsOfRoomDistinct(beds, roomId);
    FilterKeepsPairwise(BedsOfRoom(beds, roomId), id => !Occupied(rows, id, checkIn, checkOut), Differ);
  }

  /** The ids of the room's beds that no assignment conflicts with, as a set. */
  ghost function FreeBedSet(beds: seq<Bed>, rows: seq<BookingBed>, roomId: int, checkIn: int, checkOut: int): set<int>
  {
    set b | b in beds && b.roomId == roomId && !Occupied(rows, b.bedId, checkIn, checkOut) :: b.bedId
  }

  /** A list without repetitions has as many elements as the set of its elements. */
  lemma {:induction false} DistinctCardinality(s: seq<int>)
    requires Distinct(s)
    ensures |set x | x in s| == |s|
  {
    if s != [] {
      var t := s[1..];
      assert Distinct(t) by {
        forall i, j | 0 <= i < j < |t| ensures Differ(t[i], t[j]) {
          assert t[i] == s[i + 1] && t[j] == s[j + 1];
        }
      }
      DistinctCardinality(t);
      assert s[0] !in t by {
        forall k | 0 <= k < |t| ensures t[k] != s[0] {
          assert Differ(s[0], s[k + 1]);
        }
      }
      assert (set x | x in s) == {s[0]} + (set x | x in t);
    }
  }

  /** The number of free beds of a room, counted as distinct bed ids. */
  lemma FreeBedsCount(beds: seq<Bed>, rows: seq<BookingBed>, roomId: int, checkIn: int, checkOut: int)
    requires UniqueBedIds(beds)
    ensures |FreeBeds(beds, rows, roomId, checkIn, checkOut)| == |FreeBedSet(beds, rows, roomId, checkIn, checkOut)|
  {
    var free := FreeBeds(beds, rows, roomId, checkIn, checkOut);
    FreeBedsDistinct(beds, rows, roomId, checkIn, checkOut);
    DistinctCardinality(free);
    assert (set x | x in free) == FreeBedSet(beds, rows, roomId, checkIn, checkOut) by {
      forall id ensures id in free <==> id in FreeBedSet(beds, rows, roomId, checkIn, checkOut) {
        if id in free {
          assert Bed(id, roomId) in beds;
        }
      }
    }
  }

  /** The `booking_id` column of a bookings row holds `id`. */
  predicate HasBookingId(row: Record, id: int)
  {
    Get(row, "booking_id") == Num(id)
  }

  /** `update bookings set <patch> where booking_id = id` */
  function PatchBookings(rows: seq<Record>, id: int, patch: Record): seq<Record>
  {
    seq(|rows|, i requires 0 <= i < |rows| => if HasBookingId(rows[i], id) then rows[i] + patch else rows[i])
  }

  /** The database: the five tables and the next value of the id sequences. */
  class Db {
    var rooms: seq<Room>
    var beds: seq<Bed>
    var bookings: seq<Record>
    var bookingRooms: seq<BookingRoom>
    var bookingBeds: seq<BookingBed>
    var nextId: int

    /** Bed ids are keys, and no bed is held twice for overlapping stays. */
    ghost predicate Valid()
      reads this
    {
      UniqueBedIds(beds) && NoDoubleBooking(bookingBeds)
    }

    constructor ()
      ensures Valid()
      ensures rooms == [] && beds == [] && bookings == [] && bookingRooms == [] && bookingBeds == []
    {
      rooms, beds, bookings, bookingRooms, bookingBeds := [], [], [], [], [];
      nextId := 1;
    }
  }
}
