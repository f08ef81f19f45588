/** The room controller's rules: a new room's default capacity, deleting a
    room after its beds, and setting a room's capacity to its number of beds. */
module RoomController {
  import opened Js
  import opened Store
  import opened Http

  /** `const { room_name, capacity = 0 } = req.body`: the default applies only
      when `capacity` is undefined, not when it is null or 0. */
  function NewRoomCapacity(body: Record): (capacity: Value)
    ensures Get(body, "capacity") == Undefined ==> capacity == Num(0)
    ensures Get(body, "capacity") != Undefined ==> capacity == Get(body, "capacity")
  {
    var given := Get(body, "capacity");
    if given == Undefined then Num(0) else given
  }

  /** `createRoom`: insert `{ room_name, capacity }`, as JSON, under the next
      id (an undefined name is no value, Undefined in the row). The database's
      error comes back as 500 with its message. */
  method CreateRoom(db: Db, body: Record, insertFail: bool) returns (reply: Reply)
    requires db.Valid()
    modifies db
    ensures db.Valid()
    ensures db.beds == old(db.beds) && db.bookings == old(db.bookings)
    ensures db.bookingRooms == old(db.bookingRooms) && db.bookingBeds == old(db.bookingBeds)
    ensures insertFail ==> reply == Reply(500, DatabaseText("message", "")) && unchanged(db)
    ensures !insertFail ==>
      && reply == Reply(201, Rows)
      && db.rooms == old(db.rooms) + [Room(old(db.nextId), JsonValue(Get(body, "room_name")), JsonValue(NewRoomCapacity(body)))]
      && db.nextId == old(db.nextId) + 1
  {
    if insertFail {
      return Reply(500, DatabaseText("message", ""));
    }
    db.rooms := db.rooms + [Room(db.nextId, JsonValue(Get(body, "room_name")), JsonValue(NewRoomCapacity(body)))];
    db.nextId := db.nextId + 1;
    reply := Reply(201, Rows);
  }

  /** `delete from beds where room_id = id`. */
  function WithoutBedsOfRoom(beds: seq<Bed>, roomId: int): (kept: seq<Bed>)
    ensures forall b :: b in kept <==> b in beds && b.roomId != roomId
  {
    Filter(beds, (b: Bed) => b.roomId != roomId)
  }

  /** `delete from rooms where room_id = id`. */
  function WithoutRoom(rooms: seq<Room>, roomId: int): (kept: seq<Room>)
    ensures forall r :: r in kept <==> r in rooms && r.roomId != roomId
  {
    Filter(rooms, (r: Room) => r.roomId != roomId)
  }

  /** `deleteRoom`: delete the room's beds, then the room. `bedsError` and
      `roomError` are the database's answers to the two deletes (None for
      success); the id is the route parameter, which the database must read as
      an integer. When the bed delete fails nothing is deleted; when the room
      delete fails the beds are already gone and the room stays. */
  method DeleteRoom(db: Db, id: string, bedsError: Option<string>, roomError: Option<string>) returns (reply: Reply)
    requires db.Valid()
    modifies db
    ensures db.Valid()
    ensures db.bookings == old(db.bookings) && db.bookingRooms == old(db.bookingRooms)
    ensures db.bookingBeds == old(db.bookingBeds) && db.nextId == old(db.nextId)
    ensures reply.body == DatabaseText("message", "Error deleting beds: ") <==>
      bedsError.Some? || SqlInt(Str(id)).None?
    ensures reply.body == DatabaseText("message", "Error deleting beds: ") ==> reply.status == 500 && unchanged(db)
    ensures reply.body == DatabaseText("message", "Error deleting room: ") <==>
      bedsError.None? && SqlInt(Str(id)).Some? && roomError.Some?
    ensures reply.body == DatabaseText("message", "Error deleting room: ") ==>
      && reply.status == 500
      && db.beds == WithoutBedsOfRoom(old(db.beds), SqlInt(Str(id)).value)
      && db.rooms == old(db.rooms)
    ensures reply.status == 200 <==> bedsError.None? && SqlInt(Str(id)).Some? && roomError.None?
    ensures reply.status == 200 ==>
      && reply.body == Text("message", "Room and its beds deleted successfully")
      && db.beds == WithoutBedsOfRoom(old(db.beds), SqlInt(Str(id)).value)
      && db.rooms == WithoutRoom(old(db.rooms), SqlInt(Str(id)).value)
  {
    if bedsError.Some? || SqlInt(Str(id)).None? {
      return Reply(500, DatabaseText("message", "Error deleting beds: "));
    }
    var roomId := SqlInt(Str(id)).value;
    FilterKeepsPairwise(db.beds, (b: Bed) => b.roomId != roomId, DifferentBeds);
    db.beds := WithoutBedsOfRoom(db.beds, roomId);
    if roomError.Some? {
      return Reply(500, DatabaseText("message", "Error deleting room: "));
    }
    db.rooms := WithoutRoom(db.rooms, roomId);
    reply := Reply(200, Text("message", "Room and its beds deleted successfully"));
  }

  /** `update rooms set capacity = n where room_id = roomId`. */
  function SetCapacity(rooms: seq<Room>, roomId: int, n: int): (updated: seq<Room>)
    ensures |updated| == |rooms|
    ensures forall i :: 0 <= i < |rooms| && rooms[i].roomId == roomId ==> updated[i] == rooms[i].(capacity := Num(n))
    ensures forall i :: 0 <= i < |rooms| && rooms[i].roomId != roomId ==> updated[i] == rooms[i]
  {
    seq(|rooms|, i requires 0 <= i < |rooms| => if rooms[i].roomId == roomId then rooms[i].(capacity := Num(n)) else rooms[i])
  }

  /** `updateRoomCapacity`: the route parameter read by `parseInt(_, 10)`, then
      the room's beds counted, then the count written as the room's capacity.
      Only the `rooms` table changes, and only on success. */
  method UpdateRoomCapacity(db: Db, roomIdParam: string, bedsFail: bool, updateFail: bool) returns (reply: Reply)
    requires db.Valid()
    modifies db
    ensures db.Valid()
    ensures db.beds == old(db.beds) && db.bookings == old(db.bookings) && db.bookingRooms == old(db.bookingRooms)
    ensures db.bookingBeds == old(db.bookingBeds) && db.nextId == old(db.nextId)
    ensures reply.status != 200 ==> db.rooms == old(db.rooms)
    ensures ParseInt(roomIdParam).None? ==> reply == Reply(400, Text("error", "Invalid room ID"))
    ensures ParseInt(roomIdParam).Some? && bedsFail ==> reply == Reply(500, Text("error", "Failed to fetch beds"))
    ensures ParseInt(roomIdParam).Some? && !bedsFail && updateFail ==>
      reply == Reply(500, Text("error", "Failed to update room capacity"))
    ensures reply.status == 200 <==> ParseInt(roomIdParam).Some? && !bedsFail && !updateFail
    ensures reply.status == 200 ==>
      var roomId := ParseInt(roomIdParam).value;
      var n := |BedsOfRoom(old(db.beds), roomId)|;
      reply == Reply(200, Capacity(n)) && db.rooms == SetCapacity(old(db.rooms), roomId, n)
  {
    var parsed := ParseInt(roomIdParam);
    if parsed.None? {
      return Reply(400, Text("error", "Invalid room ID"));
    }
    var roomId := parsed.value;
    if bedsFail {
      return Reply(500, Text("error", "Failed to fetch beds"));
    }
    var newCapacity := |BedsOfRoom(db.beds, roomId)|;
    if updateFail {
      return Reply(500, Text("error", "Failed to update room capacity"));
    }
    db.rooms := SetCapacity(db.rooms, roomId, newCapacity);
    reply := Reply(200, Capacity(newCapacity));
  }

  /** The capacity written is the number of distinct beds of the room: bed ids
      are keys, so no bed is counted twice. */
  lemma CapacityCountsBeds(beds: seq<Bed>, roomId: int)
    requires UniqueBedIds(beds)
    ensures |BedsOfRoom(beds, roomId)| == |set b | b in beds && b.roomId == roomId :: b.bedId|
  {
    var ids := BedsOfRoom(beds, roomId);
    BedsOfRoomDistinct(beds, roomId);
    DistinctCardinality(ids);
    assert (set x | x in ids) == (set b | b in beds && b.roomId == roomId :: b.bedId) by {
      forall id ensures id in ids <==> id in (set b | b in beds && b.roomId == roomId :: b.bedId) {
        if id in ids {
          assert Bed(id, roomId) in beds;
        }
      }
    }
  }

  /** After a successful update, the room carries its bed count and every other
      room is as it was. */
  lemma CapacityAfterUpdate(rooms: seq<Room>, beds: seq<Bed>, roomId: int, i: nat)
    requires UniqueBedIds(beds) && i < |rooms|
    ensures var updated := SetCapacity(rooms, roomId, |BedsOfRoom(beds, roomId)|);
      && (rooms[i].roomId == roomId ==>
            updated[i].capacity == Num(|set b | b in beds && b.roomId == roomId :: b.bedId|)
            && updated[i].roomName == rooms[i].roomName)
      && (rooms[i].roomId != roomId ==> updated[i] == rooms[i])
  {
    CapacityCountsBeds(beds, roomId);
  }
}
