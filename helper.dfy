/** BookingHelper: the overlap check that throws, the resolution of an identifier to a
    stored row, the role predicates, and the in-place merge of an update request. */
module Helper {
  import opened Exceptions
  import opened Entity
  import opened Repository

  const OVERLAP_MESSAGE: string := "Error on saving Booking. The dates selected overlaps another existing booking"
  const NULL_ID_MESSAGE: string := "The Booking ID must not be NULL or EMPTY"

  /** The statuses the overlap check passes to the query. */
  const ACTIVE_STATUSES: seq<Status> := [BOOKED, BLOCKED]

  /** Reference statement of a conflict: a row other than `excludeId`, on the property,
      not canceled, whose dates overlap the range. */
  ghost predicate ConflictsWithActive(rows: Rows, excludeId: int, propertyUuid: Uuid, beginDate: Date, endDate: Date)
  {
    exists k :: k in rows && rows[k].id != excludeId && rows[k].property == propertyUuid
                          && rows[k].status != CANCELED && DatesOverlap(beginDate, endDate, rows[k])
  }

  /** validateOverlappedDates: throws the overlap BusinessException exactly when a
      BOOKED or BLOCKED row conflicts; otherwise returns. */
  function ValidateOverlappedDates(rows: Rows, bookingId: int, propertyUuid: Uuid,
                                   beginDate: Date, endDate: Date): (r: Outcome)
    ensures r.Fail? <==> ConflictsWithActive(rows, bookingId, propertyUuid, beginDate, endDate)
    ensures r.Fail? ==> r.error == Business(OVERLAP_MESSAGE)
  {
    if HasOverlappingDates(rows, bookingId, propertyUuid, ACTIVE_STATUSES, beginDate, endDate) then
      Fail(Business(OVERLAP_MESSAGE))
    else
      Pass
  }

  /** Rewriting a row under its own id does not change the conflicts seen from that id. */
  lemma {:induction false} RewrittenRowKeepsOthersConflicts(rows: Rows, k: nat, row: BookingRecord, propertyUuid: Uuid,
                                                            beginDate: Date, endDate: Date)
    requires KeyedById(rows) && k in rows && row.id == k
    ensures ConflictsWithActive(rows[k := row], k, propertyUuid, beginDate, endDate)
        <==> ConflictsWithActive(rows, k, propertyUuid, beginDate, endDate)
  {
    var after := rows[k := row];
    if ConflictsWithActive(after, k, propertyUuid, beginDate, endDate) {
      var j :| j in after && after[j].id != k && after[j].property == propertyUuid
               && after[j].status != CANCELED && DatesOverlap(beginDate, endDate, after[j]);
      assert j != k && rows[j] == after[j];
    }
    if ConflictsWithActive(rows, k, propertyUuid, beginDate, endDate) {
      var j :| j in rows && rows[j].id != k && rows[j].property == propertyUuid
               && rows[j].status != CANCELED && DatesOverlap(beginDate, endDate, rows[j]);
      assert j != k && after[j] == rows[j];
    }
  }

  /** A canceled row never decides the check: the answer is the same without it. */
  lemma {:induction false} CanceledRowNeverConflicts(rows: Rows, k: nat, bookingId: int, propertyUuid: Uuid,
                                                     beginDate: Date, endDate: Date)
    requires k in rows && rows[k].status == CANCELED
    ensures ValidateOverlappedDates(rows, bookingId, propertyUuid, beginDate, endDate)
         == ValidateOverlappedDates(rows - {k}, bookingId, propertyUuid, beginDate, endDate)
  {
    var rest := rows - {k};
    if ConflictsWithActive(rows, bookingId, propertyUuid, beginDate, endDate) {
      var j :| j in rows && rows[j].id != bookingId && rows[j].property == propertyUuid
                         && rows[j].status != CANCELED && DatesOverlap(beginDate, endDate, rows[j]);
      assert j in rest && rest[j] == rows[j];
    }
    if ConflictsWithActive(rest, bookingId, propertyUuid, beginDate, endDate) {
      var j :| j in rest && rest[j].id != bookingId && rest[j].property == propertyUuid
                         && rest[j].status != CANCELED && DatesOverlap(beginDate, endDate, rest[j]);
      assert j in rows && rows[j] == rest[j];
    }
  }

  /** A row on another property never decides the check either. */
  lemma {:induction false} OtherPropertyNeverConflicts(rows: Rows, k: nat, bookingId: int, propertyUuid: Uuid,
                                                       beginDate: Date, endDate: Date)
    requires k in rows && rows[k].property != propertyUuid
    ensures ValidateOverlappedDates(rows, bookingId, propertyUuid, beginDate, endDate)
         == ValidateOverlappedDates(rows - {k}, bookingId, propertyUuid, beginDate, endDate)
  {
    var rest := rows - {k};
    if ConflictsWithActive(rows, bookingId, propertyUuid, beginDate, endDate) {
      var j :| j in rows && rows[j].id != bookingId && rows[j].property == propertyUuid
                         && rows[j].status != CANCELED && DatesOverlap(beginDate, endDate, rows[j]);
      assert j in rest && rest[j] == rows[j];
    }
    if ConflictsWithActive(rest, bookingId, propertyUuid, beginDate, endDate) {
      var j :| j in rest && rest[j].id != bookingId && rest[j].property == propertyUuid
                         && rest[j].status != CANCELED && DatesOverlap(beginDate, endDate, rest[j]);
      assert j in rows && rows[j] == rest[j];
    }
  }

  /** findBookingOrElseThrow: a null identifier, a malformed one, an unknown one, or the stored row. */
  function FindBookingOrElseThrow(rows: Rows, bookingUuid: Option<string>): (r: Result<BookingRecord>)
    requires UniqueUuids(rows)
    ensures bookingUuid.None? ==> r == Err(ParameterValidation(NULL_ID_MESSAGE))
    ensures bookingUuid.Some? && !WellFormedUuid(bookingUuid.value) ==>
              r == Err(ParameterValidation(InvalidUuidMessage(bookingUuid.value)))
    ensures bookingUuid.Some? && WellFormedUuid(bookingUuid.value) ==>
              (r.Ok? <==> exists k :: k in rows && rows[k].uuid == bookingUuid.value)
    ensures bookingUuid.Some? && WellFormedUuid(bookingUuid.value) && r.Err? ==>
              r.error == ObjectNotFound(BOOKING_NOT_FOUND)
    ensures r.Ok? ==> bookingUuid.Some? && r.value in rows.Values && r.value.uuid == bookingUuid.value
  {
    match bookingUuid
    case None => Err(ParameterValidation(NULL_ID_MESSAGE))
    case Some(text) =>
      match ParseUuid(text)
      case None => Err(ParameterValidation(InvalidUuidMessage(text)))
      case Some(uuid) =>
        match FindByUuid(rows, uuid)
        case None => Err(ObjectNotFound(BOOKING_NOT_FOUND))
        case Some(booking) => Ok(booking)
  }

  /** The empty identifier is not reported as null: it fails parsing and carries the parse message. */
  lemma EmptyIdentifierIsMalformed(rows: Rows)
    requires UniqueUuids(rows)
    ensures FindBookingOrElseThrow(rows, Some("")) == Err(ParameterValidation("Invalid UUID string: "))
    ensures FindBookingOrElseThrow(rows, Some("123Testing456"))
         == Err(ParameterValidation("Invalid UUID string: 123Testing456"))
  {
    assert !WellFormedUuid("") && !WellFormedUuid("123Testing456");
    assert InvalidUuidMessage("") == "Invalid UUID string: ";
    assert InvalidUuidMessage("123Testing456") == "Invalid UUID string: 123Testing456";
  }

  /** Looking up the uuid of a stored row gives back exactly that row. */
  lemma {:induction false} StoredRowIsFound(rows: Rows, k: nat)
    requires UniqueUuids(rows) && k in rows
    ensures FindBookingOrElseThrow(rows, Some(rows[k].uuid)) == Ok(rows[k])
  {
    var r := FindBookingOrElseThrow(rows, Some(rows[k].uuid));
    assert r.Ok?;
    var j :| j in rows && rows[j] == r.value;
    assert rows[j].uuid == rows[k].uuid;
  }

  /** The row a lookup hands back is the one stored under its own id. */
  lemma {:induction false} FoundRowIsKeyed(rows: Rows, bookingUuid: Option<string>)
    requires UniqueUuids(rows) && KeyedById(rows)
    ensures var r := FindBookingOrElseThrow(rows, bookingUuid);
            r.Ok? ==> r.value.id in rows && rows[r.value.id] == r.value
  {
    var r := FindBookingOrElseThrow(rows, bookingUuid);
    if r.Ok? {
      var k :| k in rows && rows[k] == r.value;
      assert rows[k].id == k;
    }
  }

  predicate IsBlock(status: Status)
  {
    status == BLOCKED
  }

  predicate IsNotBlock(status: Status)
  {
    !IsBlock(status)
  }

  predicate IsBooking(status: Status)
  {
    status == BOOKED || status == CANCELED
  }

  predicate IsNotBooking(status: Status)
  {
    !IsBooking(status)
  }

  /** Every status has exactly one role, and the negated predicates are the complements. */
  lemma RolesPartitionStatuses(status: Status)
    ensures IsBooking(status) != IsBlock(status)
    ensures IsNotBooking(status) == IsBlock(status)
    ensures IsNotBlock(status) == IsBooking(status)
  {
  }

  /** The ModelMapper copy of request guests into new, not yet persisted, Guest entities. */
  function CopyGuests(guests: seq<GuestData>): (r: seq<Guest>)
    ensures |r| == |guests|
    ensures forall i :: 0 <= i < |r| ==> r[i] == Guest(None, guests[i])
  {
    seq(|guests|, i requires 0 <= i < |guests| => Guest(None, guests[i]))
  }

  /** The row mergeEntityToUpdate leaves behind: the request's dates always, the request's
      guests (as fresh copies, same order) only for a BOOKED or CANCELED row. */
  function MergedRecord(resource: BookingRequest, entity: BookingRecord): (r: BookingRecord)
    ensures r.beginAt == resource.beginAt && r.endAt == resource.endAt
    ensures r.id == entity.id && r.uuid == entity.uuid && r.property == entity.property && r.status == entity.status
    ensures entity.status != BLOCKED ==> |r.guests| == |resource.guests|
    ensures entity.status != BLOCKED ==> forall i :: 0 <= i < |r.guests| ==> r.guests[i] == Guest(None, resource.guests[i])
    ensures entity.status == BLOCKED ==> r.guests == entity.guests
  {
    entity.(beginAt := resource.beginAt, endAt := resource.endAt,
            guests := if IsBooking(entity.status) then CopyGuests(resource.guests) else entity.guests)
  }

  /** mergeEntityToUpdate: changes the given entity in place and hands back that same entity. */
  method MergeEntityToUpdate(resource: BookingRequest, entity: Booking) returns (merged: Booking)
    modifies entity
    ensures merged == entity
    ensures entity.Snapshot() == MergedRecord(resource, old(entity.Snapshot()))
  {
    entity.beginAt := resource.beginAt;
    entity.endAt := resource.endAt;
    if IsBooking(entity.status) {
      entity.guests := CopyGuests(resource.guests);
    }
    merged := entity;
  }
}
