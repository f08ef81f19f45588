/** The financial calculator: commission, GST, pending amount, payment status and
    settlement bank of a booking, from fixed tables keyed by channel (OTA) name
    with an 'Other' fallback, and the update that writes them to one booking.

    Rates are whole percentages; `Math.round(base * rate)` is round-half-up of
    base * percent / 100. */
module Financials {
  import opened Js
  import opened Store

  const CommissionRates: map<string, int> := map[
    "Booking.com" := 15, "Hostelworld" := 15, "Makemytrip" := 0, "Agoda" := 0,
    "Direct" := 0, "Website" := 0, "Extension" := 0, "Other" := 0]

  const GstRates: map<string, int> := map[
    "Booking.com" := 12, "Hostelworld" := 12, "Makemytrip" := 0, "Agoda" := 0,
    "Direct" := 0, "Website" := 0, "Extension" := 0, "Other" := 0]

  const Banks: map<string, string> := map[
    "Booking.com" := "Primary", "Hostelworld" := "Primary", "Makemytrip" := "Primary",
    "Agoda" := "Primary", "Direct" := "Secondary", "Website" := "Primary",
    "Extension" := "Secondary", "Other" := "Secondary"]

  /** `table[ota] ?? table['Other']` */
  function Lookup<V>(table: map<string, V>, ota: string): V
    requires "Other" in table
  {
    if ota in table then table[ota] else table["Other"]
  }

  /** The commission rate of a channel: 15% for the two commissioned OTAs, 0 for
      every other channel, listed or not. */
  function CommissionRate(ota: string): (percent: int)
    ensures percent == (if ota == "Booking.com" || ota == "Hostelworld" then 15 else 0)
  {
    Lookup(CommissionRates, ota)
  }

  /** The GST rate of a channel: 12% for the same two OTAs, 0 otherwise. */
  function GstRate(ota: string): (percent: int)
    ensures percent == (if ota == "Booking.com" || ota == "Hostelworld" then 12 else 0)
  {
    Lookup(GstRates, ota)
  }

  /** `Math.round(amount * percent / 100)`: the nearest integer, ties upwards. */
  function RoundPercent(amount: int, percent: int): (r: int)
    ensures 100 * r - 50 <= amount * percent < 100 * r + 50
  {
    (amount * percent + 50) / 100
  }

  /** `calculateCommission` */
  function CalculateCommission(ota: string, baseAmount: int): (commission: int)
    ensures 100 * commission - 50 <= baseAmount * CommissionRate(ota) < 100 * commission + 50
  {
    RoundPercent(baseAmount, CommissionRate(ota))
  }

  /** `calculateGST` */
  function CalculateGST(ota: string, baseAmount: int): (gst: int)
    ensures 100 * gst - 50 <= baseAmount * GstRate(ota) < 100 * gst + 50
  {
    RoundPercent(baseAmount, GstRate(ota))
  }

  /** `calculatePendingAmount`: what is still owed once the payment is counted. */
  function CalculatePendingAmount(baseAmount: int, gst: int, paymentReceived: int): (pending: int)
    ensures pending + paymentReceived == baseAmount + gst
  {
    baseAmount + gst - paymentReceived
  }

  /** `calculatePaymentStatus`: 'Paid' within 5 of settled (overpayment
      included), 'Unpaid' when nothing has been received, else 'Part-Payment'. */
  function CalculatePaymentStatus(pending: int, baseAmount: int, gst: int): (status: string)
    ensures status == "Paid" <==> pending <= 5
    ensures status == "Unpaid" <==> pending > 5 && pending == baseAmount + gst
    ensures status == "Part-Payment" <==> pending > 5 && pending != baseAmount + gst
  {
    if pending <= 5 then "Paid"
    else if pending == baseAmount + gst then "Unpaid"
    else "Part-Payment"
  }

  /** `calculateBank`: the secondary account for direct and extension stays and
      for every channel the table does not list. */
  function CalculateBank(ota: string): (bank: string)
    ensures bank == "Secondary" <==> ota == "Direct" || ota == "Extension" || ota == "Other" || ota !in Banks
    ensures bank == "Primary" || bank == "Secondary"
  {
    Lookup(Banks, ota)
  }

  /** The property name JavaScript uses to index a table with `ota`. Only a
      string can name a listed channel: the string form of any other value
      ('undefined', 'null', a number, ...) is never a key of the tables. */
  function ChannelKey(ota: Value): string
  {
    if ota.Str? then ota.s else "undefined"
  }

  const FinancialKeys: set<string> := {"commission", "gst", "pending_amount", "payment_status", "bank"}

  /** The five derived fields as the service computes them from a channel and
      two JavaScript numbers (None is NaN, which JSON writes as null). */
  function FinancialFields(ota: Value, baseAmount: Option<int>, paymentReceived: Option<int>): (fields: Record)
    ensures forall k :: k in fields <==> k in FinancialKeys
  {
    var channel := ChannelKey(ota);
    var commission := if baseAmount.Some? then Some(CalculateCommission(channel, baseAmount.value)) else None;
    var gst := if baseAmount.Some? then Some(CalculateGST(channel, baseAmount.value)) else None;
    var pending :=
      if baseAmount.Some? && paymentReceived.Some?
      then Some(CalculatePendingAmount(baseAmount.value, gst.value, paymentReceived.value))
      else None;
    var status :=
      if pending.Some? then CalculatePaymentStatus(pending.value, baseAmount.value, gst.value)
      else "Part-Payment";  // NaN <= 5 and NaN === x are both false
    map[
      "commission" := NumberToJson(commission),
      "gst" := NumberToJson(gst),
      "pending_amount" := NumberToJson(pending),
      "payment_status" := Str(status),
      "bank" := Str(CalculateBank(channel))]
  }

  /** The six fields `updatePaymentAndBank` writes in its single update. */
  function PaymentPatch(ota: Value, paymentReceived: Option<int>, baseAmount: Option<int>): Record
  {
    FinancialFields(ota, baseAmount, paymentReceived)["payment_received" := NumberToJson(paymentReceived)]
  }

  /** The derived fields agree with the calculators and the stored pending amount
      is base + gst − received, when both amounts are numbers. */
  lemma FinancialFieldsConsistent(ota: Value, baseAmount: int, paymentReceived: int)
    ensures var f := FinancialFields(ota, Some(baseAmount), Some(paymentReceived));
      && f["commission"] == Num(CalculateCommission(ChannelKey(ota), baseAmount))
      && f["gst"].Num?
      && f["gst"] == Num(CalculateGST(ChannelKey(ota), baseAmount))
      && f["pending_amount"] == Num(baseAmount + f["gst"].n - paymentReceived)
      && f["payment_status"] == Str(CalculatePaymentStatus(f["pending_amount"].n, baseAmount, f["gst"].n))
      && f["bank"] == Str(CalculateBank(ChannelKey(ota)))
  {
  }

  /** A NaN amount leaves pending amount null and classifies the booking as
      'Part-Payment', whatever was paid. */
  lemma NaNAmountIsPartPayment(ota: Value, baseAmount: Option<int>, paymentReceived: Option<int>)
    requires baseAmount.None? || paymentReceived.None?
    ensures FinancialFields(ota, baseAmount, paymentReceived)["pending_amount"] == Null
    ensures FinancialFields(ota, baseAmount, paymentReceived)["payment_status"] == Str("Part-Payment")
  {
  }

  /** A channel missing from the tables is charged as 'Other': no commission, no
      GST, settled to the secondary bank. */
  lemma {:induction false} UnknownChannelIsOther(ota: string, baseAmount: int)
    requires ota !in Banks
    ensures CalculateCommission(ota, baseAmount) == CalculateCommission("Other", baseAmount) == 0
    ensures CalculateGST(ota, baseAmount) == CalculateGST("Other", baseAmount) == 0
    ensures CalculateBank(ota) == CalculateBank("Other") == "Secondary"
  {
    assert ota != "Booking.com" && ota != "Hostelworld" by {
      assert "Booking.com" in Banks && "Hostelworld" in Banks;
    }
  }

  /** Booking.com, base 1000, nothing received: 150 commission, 120 GST, 1120
      pending, 'Unpaid', primary bank. */
  lemma BookingComExample()
    ensures CalculateCommission("Booking.com", 1000) == 150
    ensures CalculateGST("Booking.com", 1000) == 120
    ensures CalculatePendingAmount(1000, 120, 0) == 1120
    ensures CalculatePaymentStatus(1120, 1000, 120) == "Unpaid"
    ensures CalculateBank("Booking.com") == "Primary"
  {
  }

  /** Paying the full 1120 of the example above settles it ('Paid'). */
  lemma BookingComFullyPaid()
    ensures CalculatePendingAmount(1000, CalculateGST("Booking.com", 1000), 1120) == 0
    ensures CalculatePaymentStatus(0, 1000, 120) == "Paid"
  {
  }

  /** The status is 'Unpaid' exactly when nothing was received (beyond the
      5-unit tolerance): pending equals base + gst iff received is 0. */
  lemma {:induction false} UnpaidIffNothingReceived(baseAmount: int, gst: int, paymentReceived: int)
    requires baseAmount + gst - paymentReceived > 5
    ensures CalculatePaymentStatus(CalculatePendingAmount(baseAmount, gst, paymentReceived), baseAmount, gst) == "Unpaid"
      <==> paymentReceived == 0
  {
    var pending := CalculatePendingAmount(baseAmount, gst, paymentReceived);
    assert pending == baseAmount + gst <==> paymentReceived == 0;
  }

  /** The update writes exactly six fields (the five derived ones and the
      payment received) into the booking's row, keeps its other fields, and
      leaves every other booking's row as it was. */
  lemma PaymentPatchOnlyThatBooking(rows: seq<Record>, id: int, ota: Value, paymentReceived: Option<int>,
                                    baseAmount: Option<int>, i: nat)
    requires i < |rows|
    ensures var patch := PaymentPatch(ota, paymentReceived, baseAmount);
      && (forall k :: k in patch <==> k in FinancialKeys || k == "payment_received")
      && |PatchBookings(rows, id, patch)| == |rows|
      && (HasBookingId(rows[i], id) ==>
            && HasBookingId(PatchBookings(rows, id, patch)[i], id)
            && Get(PatchBookings(rows, id, patch)[i], "payment_received") == NumberToJson(paymentReceived)
            && (forall k :: k in FinancialKeys ==>
                  Get(PatchBookings(rows, id, patch)[i], k) == FinancialFields(ota, baseAmount, paymentReceived)[k])
            && (forall k :: k !in FinancialKeys && k != "payment_received" ==>
                  Get(PatchBookings(rows, id, patch)[i], k) == Get(rows[i], k)))
      && (!HasBookingId(rows[i], id) ==> PatchBookings(rows, id, patch)[i] == rows[i])
  {
    var patch := PaymentPatch(ota, paymentReceived, baseAmount);
    PaymentPatchFields(ota, paymentReceived, baseAmount);
    var patched := PatchBookings(rows, id, patch);
    if HasBookingId(rows[i], id) {
      assert patched[i] == rows[i] + patch;
      PatchedRowFields(rows[i], patch);
    }
  }

  /** The update holds the five derived fields and the payment received, and
      nothing else; `booking_id` is not among them. */
  lemma PaymentPatchFields(ota: Value, paymentReceived: Option<int>, baseAmount: Option<int>)
    ensures var patch := PaymentPatch(ota, paymentReceived, baseAmount);
      && (forall k :: k in patch <==> k in FinancialKeys || k == "payment_received")
      && "booking_id" !in patch
      && patch["payment_received"] == NumberToJson(paymentReceived)
      && (forall k :: k in FinancialKeys ==> patch[k] == FinancialFields(ota, baseAmount, paymentReceived)[k])
  {
    assert "payment_received" !in FinancialKeys && "booking_id" !in FinancialKeys;
  }

  /** A row merged with a patch takes the patch's fields and keeps the others. */
  lemma PatchedRowFields(row: Record, patch: Record)
    ensures forall k :: k in patch ==> Get(row + patch, k) == patch[k]
    ensures forall k :: k !in patch ==> Get(row + patch, k) == Get(row, k)
  {
  }

  /** `updatePaymentAndBank`: one update of the booking's row writing the six
      derived fields; every other row and table is untouched. */
  method UpdatePaymentAndBank(db: Db, bookingId: Value, ota: Value, paymentReceived: Option<int>,
                              baseAmount: Option<int>, updateFails: bool)
    returns (res: Outcome<Error>)
    requires db.Valid()
    modifies db
    ensures db.Valid()
    ensures db.rooms == old(db.rooms) && db.beds == old(db.beds) && db.bookingRooms == old(db.bookingRooms)
    ensures db.bookingBeds == old(db.bookingBeds) && db.nextId == old(db.nextId)
    ensures res.Pass? <==> !updateFails && SqlInt(bookingId).Some?
    ensures res.Fail? ==> res.error == StoreFailure && db.bookings == old(db.bookings)
    ensures res.Pass? ==>
      db.bookings == PatchBookings(old(db.bookings), SqlInt(bookingId).value, PaymentPatch(ota, paymentReceived, baseAmount))
  {
    if updateFails || SqlInt(bookingId).None? {
      return Fail(StoreFailure);
    }
    db.bookings := PatchBookings(db.bookings, SqlInt(bookingId).value, PaymentPatch(ota, paymentReceived, baseAmount));
    res := Pass;
  }
}
