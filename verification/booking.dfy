/**
 * Booking creation: look the resource up, price the interval, refuse it when it overlaps any
 * reservation on the same resource, otherwise append a new reservation.
 */
module Booking {
  import opened Common
  import Resources

  /** Milliseconds in one hour: times are millisecond instants, prices are per hour. */
  const MillisPerHour: int := 3600000

  datatype ReservationStatus = PENDING | CONFIRMED | CANCELLED | FINALIZED

  /** A stored reservation of [startTime, endTime), times in milliseconds. */
  datatype Reservation = Reservation(
    id: ReservationId,
    resourceId: ResourceId,
    userId: UserId,
    startTime: int,
    endTime: int,
    totalPrice: real,
    status: ReservationStatus)

  datatype CreateBookingDto = CreateBookingDto(startTime: int, endTime: int, resourceId: ResourceId)

  /** The price of [startTime, endTime) at `pricePerHour`: the duration in hours times the rate, unrounded. */
  function Price(startTime: int, endTime: int, pricePerHour: real): real {
    (endTime - startTime) as real / MillisPerHour as real * pricePerHour
  }

  /** The database query of a booking: `existing` is on the resource and overlaps [start, end) (half-open). */
  predicate Conflicts(existing: Reservation, resourceId: ResourceId, start: int, end: int) {
    existing.resourceId == resourceId && existing.endTime > start && existing.startTime < end
  }

  /** Two stored reservations collide when one would have been refused against the other. */
  predicate Overlapping(a: Reservation, b: Reservation) {
    Conflicts(a, b.resourceId, b.startTime, b.endTime)
  }

  /** Some row of `rows` conflicts with [start, end) on `resourceId`. */
  predicate HasConflict(rows: seq<Reservation>, resourceId: ResourceId, start: int, end: int) {
    exists i :: 0 <= i < |rows| && Conflicts(rows[i], resourceId, start, end)
  }

  /** No two distinct rows collide. */
  predicate NoOverlap(rows: seq<Reservation>) {
    forall i, j :: 0 <= i < |rows| && 0 <= j < |rows| && i != j ==> !Overlapping(rows[i], rows[j])
  }

  /** Every row has a distinct id below `bound`. */
  predicate IdsBelow(rows: seq<Reservation>, bound: nat) {
    (forall i :: 0 <= i < |rows| ==> rows[i].id < bound) &&
    (forall i, j :: 0 <= i < j < |rows| ==> rows[i].id != rows[j].id)
  }

  // ---------------------------------------------------------------------------------------------
  // Properties of the price

  /** Two hours at 100 per hour cost 200. */
  lemma TwoHoursAtHundred(start: int)
    ensures Price(start, start + 2 * MillisPerHour, 100.0) == 200.0
  {
  }

  /** An hour and a half at 100 per hour costs 150. */
  lemma NinetyMinutesAtHundred(start: int)
    ensures Price(start, start + 5400000, 100.0) == 150.0
  {
  }

  /** The price depends only on the duration, and scales linearly with it. */
  lemma PriceLinear(start: int, end: int, k: int, pricePerHour: real)
    ensures Price(start, end, pricePerHour) == Price(0, end - start, pricePerHour)
    ensures Price(0, k * (end - start), pricePerHour) == k as real * Price(start, end, pricePerHour)
  {
  }

  /** A non-empty interval at a non-negative rate never has a negative price. */
  lemma PriceNonNegative(start: int, end: int, pricePerHour: real)
    requires start <= end && 0.0 <= pricePerHour
    ensures 0.0 <= Price(start, end, pricePerHour)
  {
  }

  // ---------------------------------------------------------------------------------------------
  // Properties of the conflict test

  /** The overlap relation is symmetric. */
  lemma OverlappingSymmetric(a: Reservation, b: Reservation)
    ensures Overlapping(a, b) <==> Overlapping(b, a)
  {
  }

  /** Intervals that only touch do not conflict: one ending at `start`, or one starting at `end`. */
  lemma TouchingDoesNotConflict(existing: Reservation, start: int, end: int)
    requires existing.endTime == start || existing.startTime == end
    ensures !Conflicts(existing, existing.resourceId, start, end)
  {
  }

  /** Existing 10:00-12:00 against a request 11:00-13:00 on the same resource is a conflict. */
  lemma LaterOverlapConflicts(existing: Reservation)
    requires existing.startTime == 10 * MillisPerHour && existing.endTime == 12 * MillisPerHour
    ensures Conflicts(existing, existing.resourceId, 11 * MillisPerHour, 13 * MillisPerHour)
  {
  }

  /** Rows on other resources never create or remove a conflict. */
  lemma {:induction false} OtherResourcesIrrelevant(rows: seq<Reservation>, others: seq<Reservation>,
                                                    resourceId: ResourceId, start: int, end: int)
    requires forall k :: 0 <= k < |others| ==> others[k].resourceId != resourceId
    ensures HasConflict(rows + others, resourceId, start, end) == HasConflict(rows, resourceId, start, end)
  {
    if HasConflict(rows + others, resourceId, start, end) {
      var i :| 0 <= i < |rows + others| && Conflicts((rows + others)[i], resourceId, start, end);
      if i >= |rows| {
        assert false;
      }
      assert (rows + others)[i] == rows[i];
    }
    if HasConflict(rows, resourceId, start, end) {
      var i :| 0 <= i < |rows| && Conflicts(rows[i], resourceId, start, end);
      assert (rows + others)[i] == rows[i];
    }
  }

  /** The conflict test ignores status: a row still blocks whatever its status becomes. */
  lemma {:induction false} ConflictIgnoresStatus(rows: seq<Reservation>, k: nat, status: ReservationStatus,
                                                 resourceId: ResourceId, start: int, end: int)
    requires k < |rows|
    ensures HasConflict(rows[k := rows[k].(status := status)], resourceId, start, end)
            == HasConflict(rows, resourceId, start, end)
  {
    var changed := rows[k := rows[k].(status := status)];
    assert forall i :: 0 <= i < |rows| ==>
      (Conflicts(changed[i], resourceId, start, end) <==> Conflicts(rows[i], resourceId, start, end));
  }

  /** Appending a row that conflicts with none of `rows` keeps the rows pairwise non-overlapping. */
  lemma AppendKeepsNoOverlap(rows: seq<Reservation>, r: Reservation)
    requires NoOverlap(rows)
    requires !HasConflict(rows, r.resourceId, r.startTime, r.endTime)
    ensures NoOverlap(rows + [r])
  {
  }

  // ---------------------------------------------------------------------------------------------
  // The service

  class BookingService {
    /** The resource table the bookings refer to (the same database). */
    const catalog: Resources.ResourceService
    var reservations: seq<Reservation>
    var nextId: ReservationId

    /** Ids are distinct and below `nextId`; no two reservations on one resource overlap. */
    ghost predicate Valid()
      reads this
    {
      IdsBelow(reservations, nextId) && NoOverlap(reservations)
    }

    constructor (catalog: Resources.ResourceService)
      ensures Valid() && this.catalog == catalog && reservations == []
    {
      this.catalog := catalog;
      reservations := [];
      nextId := 0;
    }

    /** The first reservation the overlap query matches, as an index into the table, if any. */
    method FindConflict(resourceId: ResourceId, start: int, end: int) returns (found: Option<nat>)
      ensures found.None? <==> !HasConflict(reservations, resourceId, start, end)
      ensures found.Some? ==>
                found.value < |reservations| && Conflicts(reservations[found.value], resourceId, start, end) &&
                forall i :: 0 <= i < found.value ==> !Conflicts(reservations[i], resourceId, start, end)
    {
      var i := 0;
      while i < |reservations|
        invariant 0 <= i <= |reservations|
        invariant forall k :: 0 <= k < i ==> !Conflicts(reservations[k], resourceId, start, end)
      {
        if Conflicts(reservations[i], resourceId, start, end) {
          return Some(i);
        }
        i := i + 1;
      }
      found := None;
    }

    /**
     * Books [dto.startTime, dto.endTime) on dto.resourceId for `userId`. Fails with NotFound when
     * the resource does not exist and with Forbidden when any reservation on it, whatever its
     * status, overlaps the interval; otherwise appends one PENDING reservation priced by the hour.
     */
    method Create(dto: CreateBookingDto, userId: UserId) returns (result: Result<Reservation>)
      requires Valid() && catalog.Valid()
      modifies this
      ensures Valid()
      ensures dto.resourceId !in catalog.resources ==>
                result == Err(NotFound) && reservations == old(reservations)
      ensures dto.resourceId in catalog.resources &&
              HasConflict(old(reservations), dto.resourceId, dto.startTime, dto.endTime) ==>
                result == Err(Forbidden) && reservations == old(reservations)
      ensures dto.resourceId in catalog.resources &&
              !HasConflict(old(reservations), dto.resourceId, dto.startTime, dto.endTime) ==>
                result.Ok? && reservations == old(reservations) + [result.value]
      ensures result.Ok? ==>
                var r := result.value;
                (forall i :: 0 <= i < |old(reservations)| ==> old(reservations)[i].id != r.id) &&
                r.resourceId == dto.resourceId && r.userId == userId &&
                r.startTime == dto.startTime && r.endTime == dto.endTime && r.status == PENDING &&
                r.totalPrice == Price(dto.startTime, dto.endTime, catalog.resources[dto.resourceId].pricePerHour)
    {
      var resource := catalog.FindOne(dto.resourceId);
      if resource.None? {
        return Err(NotFound);
      }
      var totalPrice := Price(dto.startTime, dto.endTime, resource.value.pricePerHour);
      var conflicting := FindConflict(dto.resourceId, dto.startTime, dto.endTime);
      if conflicting.Some? {
        return Err(Forbidden);
      }
      var r := Reservation(nextId, dto.resourceId, userId, dto.startTime, dto.endTime, totalPrice, PENDING);
      AppendKeepsNoOverlap(reservations, r);
      reservations := reservations + [r];
      nextId := nextId + 1;
      result := Ok(r);
    }
  }
}
