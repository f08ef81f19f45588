/** `insertBooking`: build the bookings row from a request, the night count and
    the financial fields, and insert it. */
module InsertBookings {
  import opened Js
  import opened Store

  /** The properties the destructuring names; the rest of the request is
      spread unchanged. */
  const Named: set<string> :=
    {"guests_per_room", "number_of_adults", "base_amount", "payment_received", "ota_name", "check_in", "check_out"}

  /** The properties the literal lists by name: the named ones but
      `guests_per_room`, and `number_of_nights`. */
  const Listed: set<string> :=
    {"number_of_adults", "base_amount", "payment_received", "number_of_nights", "ota_name", "check_in", "check_out"}

  /** The properties listed by name, with the values the destructuring and the
      `number_of_nights` argument give them. */
  function ListedFields(data: Record, nights: Value): (fields: Record)
    ensures forall k :: k in fields <==> k in Listed
    ensures forall k :: k in fields ==> fields[k] == if k == "number_of_nights" then nights else Get(data, k)
  {
    map k | k in Listed :: if k == "number_of_nights" then nights else Get(data, k)
  }

  /** The object literal of `insertBooking`: `...rest`, then the named fields
      and `number_of_nights`, then `...financials`. A later property overrides
      an earlier one of the same name. */
  function BookingRecord(data: Record, financials: Record, nights: Value): (rec: Record)
    ensures "guests_per_room" in rec <==> "guests_per_room" in financials
    ensures forall k :: k in financials ==> Get(rec, k) == financials[k]
    ensures "number_of_nights" !in financials ==> Get(rec, "number_of_nights") == nights
    ensures forall k :: k in Listed && k != "number_of_nights" && k !in financials ==> Get(rec, k) == Get(data, k)
    ensures forall k :: k in data && k !in Named && k !in Listed && k !in financials ==> Get(rec, k) == data[k]
    ensures forall k :: k in rec ==> k in data || k in Listed || k in financials
  {
    var rest := map k | k in data && k !in Named :: data[k];
    assert "guests_per_room" in Named && "guests_per_room" !in Listed;
    rest + ListedFields(data, nights) + financials
  }

  /** The row the database stores for a record: its JSON form, with the next
      value of the id sequence as `booking_id`. */
  function StoredBooking(rec: Record, id: int): (row: Record)
    ensures HasBookingId(row, id)
    ensures forall k {:trigger Get(row, k)} :: k != "booking_id" ==> Get(row, k) == JsonValue(Get(rec, k))
  {
    Json(rec)["booking_id" := Num(id)]
  }

  /** The stored row never holds `guests_per_room`, keeps `number_of_nights` and
      `number_of_adults` as passed (in their JSON form), and takes every
      financial field from `financials`. */
  lemma StoredBookingFields(data: Record, financials: Record, nights: Value, id: int)
    requires "guests_per_room" !in financials && "number_of_nights" !in financials && "number_of_adults" !in financials
    ensures var row := StoredBooking(BookingRecord(data, financials, nights), id);
      && "guests_per_room" !in row
      && Get(row, "number_of_nights") == JsonValue(nights)
      && Get(row, "number_of_adults") == JsonValue(Get(data, "number_of_adults"))
      && forall k :: k in financials && k != "booking_id" ==> Get(row, k) == JsonValue(financials[k])
  {
    var rec := BookingRecord(data, financials, nights);
    assert Get(rec, "guests_per_room") == Undefined;
  }

  /** `insertBooking(bookingData, financials, number_of_nights)`: one row is
      appended to `bookings` and returned; on a database error nothing is
      written and "Could not insert booking" is thrown. */
  method InsertBooking(db: Db, data: Record, financials: Record, nights: Value, insertFail: bool)
    returns (res: Result<Record, Error>)
    requires db.Valid()
    modifies db
    ensures db.Valid()
    ensures db.rooms == old(db.rooms) && db.beds == old(db.beds)
    ensures db.bookingRooms == old(db.bookingRooms) && db.bookingBeds == old(db.bookingBeds)
    ensures res.Err? <==> insertFail
    ensures res.Err? ==> res.error == Message("Could not insert booking") && unchanged(db)
    ensures res.Ok? ==> res.value == StoredBooking(BookingRecord(data, financials, nights), old(db.nextId))
    ensures res.Ok? ==> db.bookings == old(db.bookings) + [res.value] && db.nextId == old(db.nextId) + 1
  {
    var rec := BookingRecord(data, financials, nights);
    if insertFail {
      return Err(Message("Could not insert booking"));
    }
    var row := StoredBooking(rec, db.nextId);
    db.bookings := db.bookings + [row];
    db.nextId := db.nextId + 1;
    res := Ok(row);
  }
}
