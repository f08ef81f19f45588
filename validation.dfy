/** `validateBookingData`: an ordered list of checks on a booking request that
    yields the message of the first failing check, or null when all pass. */
module Validation {
  import opened Js

  const RequiredFields: seq<string> := ["booking_name", "check_in", "check_out", "ota_name", "base_amount"]

  datatype ValidationError =
    | MissingField(field: string)
    | CheckOutNotAfterCheckIn
    | NegativeAmount
    | InvalidAdults
    | InvalidRooms
  {
    /** The message the validator returns. */
    function Text(): string
    {
      match this
      case MissingField(field) => "Missing required field: " + field
      case CheckOutNotAfterCheckIn => "Check-out date must be after check-in date."
      case NegativeAmount => "Amounts must be non-negative numbers."
      case InvalidAdults => "Number of Adults must be a positive number."
      case InvalidRooms => "Guests must be correctly assigned to rooms."
    }
  }

  /** `!v && v !== 0`: a falsy value other than 0 counts as missing. */
  predicate Missing(v: Value)
  {
    Falsy(v) && v != Num(0)
  }

  /** `new Date(v)` as a time value: a number (or what `Number()` makes of a
      boolean or null); strings are not read as dates here, objects and NaN give
      an invalid date (None). */
  function DateOf(v: Value): Option<int>
  {
    match v
    case Str(_) => None
    case Obj(_) => None
    case _ => ToNumber(v)
  }

  /** `checkOut <= checkIn`: false when either date is invalid. */
  predicate CheckOutNotAfter(data: Record)
  {
    var checkIn := DateOf(Get(data, "check_in"));
    var checkOut := DateOf(Get(data, "check_out"));
    checkIn.Some? && checkOut.Some? && checkOut.value <= checkIn.value
  }

  /** `data.base_amount < 0 || data.payment_received < 0` */
  predicate NegativeAmounts(data: Record)
  {
    LessThan(ToNumber(Get(data, "base_amount")), 0) || LessThan(ToNumber(Get(data, "payment_received")), 0)
  }

  /** `isNaN(Number(data.number_of_adults)) || data.number_of_adults <= 0` */
  predicate BadAdults(data: Record)
  {
    var adults := ToNumber(Get(data, "number_of_adults"));
    adults.None? || adults.value <= 0
  }

  /** A non-empty object of room id to guest count. */
  predicate RoomsGiven(data: Record)
  {
    var rooms := Get(data, "guests_per_room");
    rooms.Obj? && |rooms.entries| > 0
  }

  /** The first of `fields` that is missing from `data`. */
  function FirstMissing(data: Record, fields: seq<string>): (f: Option<string>)
    ensures f.None? <==> forall i :: 0 <= i < |fields| ==> !Missing(Get(data, fields[i]))
    ensures f.Some? ==> exists i :: 0 <= i < |fields| && fields[i] == f.value && Missing(Get(data, f.value))
                                    && forall j :: 0 <= j < i ==> !Missing(Get(data, fields[j]))
  {
    if fields == [] then None
    else if Missing(Get(data, fields[0])) then Some(fields[0])
    else
      var rest := FirstMissing(data, fields[1..]);
      assert rest.Some? ==> exists i :: 1 <= i < |fields| && fields[i] == rest.value && Missing(Get(data, rest.value))
                                        && forall j :: 0 <= j < i ==> !Missing(Get(data, fields[j])) by {
        if rest.Some? {
          var i :| 0 <= i < |fields[1..]| && fields[1..][i] == rest.value && Missing(Get(data, rest.value))
                   && forall j :: 0 <= j < i ==> !Missing(Get(data, fields[1..][j]));
          assert forall j :: 1 <= j < i + 1 ==> fields[j] == fields[1..][j - 1];
        }
      }
      rest
  }

  /** The validator's answer: the first failing check, in the source's order. */
  function Validate(data: Record): Option<ValidationError>
  {
    var missing := FirstMissing(data, RequiredFields);
    if missing.Some? then Some(MissingField(missing.value))
    else if CheckOutNotAfter(data) then Some(CheckOutNotAfterCheckIn)
    else if NegativeAmounts(data) then Some(NegativeAmount)
    else if BadAdults(data) then Some(InvalidAdults)
    else if !RoomsGiven(data) then Some(InvalidRooms)
    else None
  }

  /** `validateBookingData`: the loop over the required fields with its early
      return, then the ordered checks. */
  method ValidateBookingData(data: Record) returns (err: Option<ValidationError>)
    ensures err == Validate(data)
  {
    for k := 0 to |RequiredFields|
      invariant forall j :: 0 <= j < k ==> !Missing(Get(data, RequiredFields[j]))
    {
      var field := RequiredFields[k];
      if Missing(Get(data, field)) {
        FirstMissingIsFirst(data, RequiredFields, k);
        return Some(MissingField(field));
      }
    }
    if CheckOutNotAfter(data) {
      return Some(CheckOutNotAfterCheckIn);
    }
    if NegativeAmounts(data) {
      return Some(NegativeAmount);
    }
    if BadAdults(data) {
      return Some(InvalidAdults);
    }
    if !RoomsGiven(data) {
      return Some(InvalidRooms);
    }
    return None;
  }

  /** The field the scan stops at is the one `FirstMissing` names. */
  lemma {:induction false} FirstMissingIsFirst(data: Record, fields: seq<string>, k: nat)
    requires k < |fields| && Missing(Get(data, fields[k]))
    requires forall j :: 0 <= j < k ==> !Missing(Get(data, fields[j]))
    ensures FirstMissing(data, fields) == Some(fields[k])
  {
    if k > 0 {
      FirstMissingIsFirst(data, fields[1..], k - 1);
    }
  }

  /** Null exactly when every check passes. */
  lemma ValidIffAllChecksPass(data: Record)
    ensures Validate(data).None? <==>
      && (forall f :: f in RequiredFields ==> !Missing(Get(data, f)))
      && !CheckOutNotAfter(data)
      && !NegativeAmounts(data)
      && !BadAdults(data)
      && RoomsGiven(data)
  {
    if Validate(data).None? {
      forall f | f in RequiredFields ensures !Missing(Get(data, f)) {
        var i :| 0 <= i < |RequiredFields| && RequiredFields[i] == f;
      }
    }
  }

  /** Required fields are checked in order: the message names the first missing one. */
  lemma {:induction false} FirstMissingFieldNamed(data: Record, k: nat)
    requires k < |RequiredFields| && Missing(Get(data, RequiredFields[k]))
    requires forall j :: 0 <= j < k ==> !Missing(Get(data, RequiredFields[j]))
    ensures Validate(data) == Some(MissingField(RequiredFields[k]))
    ensures Validate(data).value.Text() == "Missing required field: " + RequiredFields[k]
  {
    FirstMissingIsFirst(data, RequiredFields, k);
  }

  /** A required field whose value is 0 counts as present. */
  lemma ZeroIsPresent(data: Record, f: string)
    requires Get(data, f) == Num(0)
    ensures FirstMissing(data, RequiredFields) != Some(f)
  {
  }

  /** Once the required fields are present, the remaining checks report in order:
      dates, then amounts, then adults, then rooms. */
  lemma LaterChecksInOrder(data: Record)
    requires forall f :: f in RequiredFields ==> !Missing(Get(data, f))
    ensures CheckOutNotAfter(data) ==> Validate(data) == Some(CheckOutNotAfterCheckIn)
    ensures !CheckOutNotAfter(data) && NegativeAmounts(data) ==> Validate(data) == Some(NegativeAmount)
    ensures !CheckOutNotAfter(data) && !NegativeAmounts(data) && BadAdults(data) ==> Validate(data) == Some(InvalidAdults)
    ensures !CheckOutNotAfter(data) && !NegativeAmounts(data) && !BadAdults(data) && !RoomsGiven(data)
            ==> Validate(data) == Some(InvalidRooms)
  {
    assert FirstMissing(data, RequiredFields).None? by {
      forall i | 0 <= i < |RequiredFields| ensures !Missing(Get(data, RequiredFields[i])) {
        assert RequiredFields[i] in RequiredFields;
      }
    }
  }
}
