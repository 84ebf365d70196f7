/** What each BlockService operation does to the database, as a function from the state
    before the call to the reply and the state after it. The guards of updateBlock and
    deleteBlock refuse exactly the BLOCKED rows, so both go through for bookings only. */
module BlockWorkflow {
  import opened Exceptions
  import opened Entity
  import opened Repository
  import opened Store
  import opened Helper
  import opened GuardTable
  import BookingWorkflow

  const UPDATE_BLOCK_MESSAGE: string := "You can update bookings only with BLOCKED status"
  const DELETE_BLOCK_MESSAGE: string := "You can delete bookings only with BLOCKED status"

  /** createBlock: the property must resolve and the range must not conflict; then a BLOCKED
      row with the requested dates and no guests is inserted. */
  function CreateBlock(db: Db, resource: BookingRequest, freshUuid: Uuid): (r: (Result<BookingRecord>, Db))
    ensures r.0.Err? ==> r.1 == db
    ensures db.FindProperty(resource.propertyId).Err? ==> r.0 == Err(db.FindProperty(resource.propertyId).error)
    ensures db.FindProperty(resource.propertyId).Ok? ==>
              && (r.0.Err? <==> ConflictsWithActive(db.bookings, 0, resource.propertyId, resource.beginAt, resource.endAt))
              && (r.0.Err? ==> r.0.error == Business(OVERLAP_MESSAGE))
    ensures r.0.Ok? ==>
              && r.0.value == BookingRecord(db.nextId, freshUuid, resource.propertyId, BLOCKED,
                                            resource.beginAt, resource.endAt, [])
              && r.1 == db.(bookings := db.bookings[db.nextId := r.0.value], nextId := db.nextId + 1)
  {
    match db.FindProperty(resource.propertyId)
    case Err(e) => (Err(e), db)
    case Ok(property) =>
      match ValidateOverlappedDates(db.bookings, 0, property, resource.beginAt, resource.endAt)
      case Fail(e) => (Err(e), db)
      case Pass =>
        assert IdRange(db.nextGuestId, 0) == {};
        var (persisted, db') := db.Insert(property, BLOCKED, resource.beginAt, resource.endAt, [], freshUuid);
        (Ok(persisted), db')
  }

  /** updateBlock: a BLOCKED row is refused; for any other row its STORED dates are checked
      against the other rows, then the request is merged in and the row saved. */
  function UpdateBlock(db: Db, uuid: Option<string>, resource: BookingRequest): (r: (Result<BookingRecord>, Db))
    requires UniqueUuids(db.bookings)
    ensures r.0.Err? ==> r.1 == db
    ensures var found := FindBookingOrElseThrow(db.bookings, uuid);
            found.Err? ==> r.0 == Err(found.error)
    ensures var found := FindBookingOrElseThrow(db.bookings, uuid);
            found.Ok? ==> (r.0 == Err(Business(UPDATE_BLOCK_MESSAGE)) <==> RejectedByCode(UpdateBlockOp, found.value.status))
    ensures var found := FindBookingOrElseThrow(db.bookings, uuid);
            found.Ok? && !RejectedByCode(UpdateBlockOp, found.value.status) ==>
              && (r.0.Err? <==> ConflictsWithActive(db.bookings, found.value.id, found.value.property,
                                                    found.value.beginAt, found.value.endAt))
              && (r.0.Err? ==> r.0.error == Business(OVERLAP_MESSAGE))
    ensures var found := FindBookingOrElseThrow(db.bookings, uuid);
            r.0.Ok? ==>
              && found.Ok? && !RejectedByCode(UpdateBlockOp, found.value.status)
              && r.0.value.id == found.value.id && r.0.value.uuid == found.value.uuid
              && r.0.value.property == found.value.property && r.0.value.status == found.value.status
              && r.0.value.beginAt == resource.beginAt && r.0.value.endAt == resource.endAt
              && GuestDataOf(r.0.value.guests) == resource.guests
              && GuestIds(r.0.value.guests) == IdRange(db.nextGuestId, |resource.guests|)
              && r.1.bookings == db.bookings[found.value.id := r.0.value]
              && r.1.guestIds == db.guestIds + IdRange(db.nextGuestId, |resource.guests|)
              && r.1.nextGuestId == db.nextGuestId + |resource.guests|
              && r.1.nextId == db.nextId && r.1.properties == db.properties
  {
    match FindBookingOrElseThrow(db.bookings, uuid)
    case Err(e) => (Err(e), db)
    case Ok(booking) =>
      if IsBlock(booking.status) then
        (Err(Business(UPDATE_BLOCK_MESSAGE)), db)
      else
        match ValidateOverlappedDates(db.bookings, booking.id, booking.property, booking.beginAt, booking.endAt)
        case Fail(e) => (Err(e), db)
        case Pass =>
          var merged := MergedRecord(resource, booking);
          BookingWorkflow.NewGuestsOfMerge(resource, booking);
          var (updated, db') := db.Save(merged);
          (Ok(updated), db')
  }

  /** deleteBlock: a BLOCKED row is refused; any other row is deleted, its guests with it. */
  function DeleteBlock(db: Db, uuid: Option<string>): (r: (Outcome, Db))
    requires UniqueUuids(db.bookings)
    ensures r.0.Fail? ==> r.1 == db
    ensures var found := FindBookingOrElseThrow(db.bookings, uuid);
            found.Err? ==> r.0 == Fail(found.error)
    ensures var found := FindBookingOrElseThrow(db.bookings, uuid);
            found.Ok? ==>
              && (r.0.Pass? <==> !RejectedByCode(DeleteBlockOp, found.value.status))
              && (r.0.Fail? ==> r.0.error == Business(DELETE_BLOCK_MESSAGE))
    ensures var found := FindBookingOrElseThrow(db.bookings, uuid);
            r.0.Pass? ==>
              r.1 == db.(bookings := db.bookings - {found.value.id},
                         guestIds := db.guestIds - GuestIds(found.value.guests))
  {
    match FindBookingOrElseThrow(db.bookings, uuid)
    case Err(e) => (Fail(e), db)
    case Ok(booking) =>
      if IsBlock(booking.status) then
        (Fail(Business(DELETE_BLOCK_MESSAGE)), db)
      else
        (Pass, db.Delete(booking))
  }

  /** BlockService.findByUUID: the stored row if it is a block; any other row is reported as
      not found. */
  function FindBlock(db: Db, uuid: Option<string>): (r: Result<BookingRecord>)
    requires UniqueUuids(db.bookings)
    ensures r.Ok? <==> uuid.Some? && exists k :: k in db.bookings && db.bookings[k].uuid == uuid.value
                                                 && db.bookings[k].status == BLOCKED
    ensures r.Ok? ==> r.value in db.bookings.Values && r.value.uuid == uuid.value && r.value.status == BLOCKED
    ensures var found := FindBookingOrElseThrow(db.bookings, uuid);
            found.Err? ==> r == Err(found.error)
    ensures var found := FindBookingOrElseThrow(db.bookings, uuid);
            found.Ok? && found.value.status != BLOCKED ==> r == Err(ObjectNotFound(BOOKING_NOT_FOUND))
  {
    match FindBookingOrElseThrow(db.bookings, uuid)
    case Err(e) => Err(e)
    case Ok(block) =>
      if IsBlock(block.status) then Ok(block) else Err(ObjectNotFound(BOOKING_NOT_FOUND))
  }

  // ---------------------------------------------------------------------------
  // Every operation keeps the table invariants
  // ---------------------------------------------------------------------------

  lemma {:induction false} CreateBlockKeepsValid(db: Db, resource: BookingRequest, freshUuid: Uuid)
    requires ValidDb(db) && FreshUuid(db, freshUuid)
    ensures ValidDb(CreateBlock(db, resource, freshUuid).1)
  {
    var property := db.FindProperty(resource.propertyId);
    if property.Ok? {
      InsertKeepsValid(db, property.value, BLOCKED, resource.beginAt, resource.endAt, [], freshUuid);
    }
  }

  lemma {:induction false} UpdateBlockKeepsValid(db: Db, uuid: Option<string>, resource: BookingRequest)
    requires ValidDb(db)
    ensures ValidDb(UpdateBlock(db, uuid, resource).1)
  {
    var found := FindBookingOrElseThrow(db.bookings, uuid);
    FoundRowIsKeyed(db.bookings, uuid);
    if found.Ok? {
      SaveKeepsValid(db, MergedRecord(resource, found.value));
    }
  }

  lemma {:induction false} DeleteBlockKeepsValid(db: Db, uuid: Option<string>)
    requires ValidDb(db)
    ensures ValidDb(DeleteBlock(db, uuid).1)
  {
    var found := FindBookingOrElseThrow(db.bookings, uuid);
    if found.Ok? {
      DeleteKeepsValid(db, found.value);
    }
  }

  // ---------------------------------------------------------------------------
  // Consequences of the code's guards and of checking the stored dates
  // ---------------------------------------------------------------------------

  /** Whether updateBlock is refused does not depend on the requested dates at all: only the
      row's stored dates are checked. */
  lemma {:induction false} UpdateBlockIgnoresRequestedDates(db: Db, uuid: Option<string>,
                                                           first: BookingRequest, second: BookingRequest)
    requires UniqueUuids(db.bookings)
    ensures UpdateBlock(db, uuid, first).0.Err? <==> UpdateBlock(db, uuid, second).0.Err?
    ensures UpdateBlock(db, uuid, first).0.Err? ==> UpdateBlock(db, uuid, first).0 == UpdateBlock(db, uuid, second).0
  {
  }

  /** A block, once created, is found by BlockService but can be changed by neither
      updateBlock nor deleteBlock; deleteBooking is the operation that removes it. */
  lemma {:induction false} CreatedBlockIsOnlyDeletedAsBooking(db: Db, resource: BookingRequest, freshUuid: Uuid)
    requires ValidDb(db) && FreshUuid(db, freshUuid)
    ensures var c := CreateBlock(db, resource, freshUuid);
            c.0.Ok? ==>
              && ValidDb(c.1)
              && FindBlock(c.1, Some(freshUuid)) == Ok(c.0.value)
              && UpdateBlock(c.1, Some(freshUuid), resource) == (Err(Business(UPDATE_BLOCK_MESSAGE)), c.1)
              && DeleteBlock(c.1, Some(freshUuid)) == (Fail(Business(DELETE_BLOCK_MESSAGE)), c.1)
              && BookingWorkflow.DeleteBooking(c.1, Some(freshUuid))
                 == (Pass, c.1.(bookings := c.1.bookings - {db.nextId}))
  {
    var c := CreateBlock(db, resource, freshUuid);
    if c.0.Ok? {
      CreateBlockKeepsValid(db, resource, freshUuid);
      InsertKeepsValid(db, db.FindProperty(resource.propertyId).value, BLOCKED, resource.beginAt, resource.endAt,
                       [], freshUuid);
      assert c.1.bookings[db.nextId] == c.0.value;
      StoredRowIsFound(c.1.bookings, db.nextId);
      assert GuestIds(c.0.value.guests) == {};
      assert c.1.guestIds - {} == c.1.guestIds;
    }
  }

  /** Every block the lookup returns has no guests. */
  lemma {:induction false} FoundBlockHasNoGuests(db: Db, uuid: Option<string>)
    requires ValidDb(db)
    ensures FindBlock(db, uuid).Ok? ==> FindBlock(db, uuid).value.guests == []
  {
    var r := FindBlock(db, uuid);
    if r.Ok? {
      var k :| k in db.bookings && db.bookings[k] == r.value;
    }
  }

  /** An update through the block path can leave two active rows overlapping: updateBlock checks
      the row's old dates and then writes the requested ones. Two BOOKED rows on one property,
      on days 1-2 and 10-11; moving the second to days 1-2 is accepted. */
  lemma {:induction false} UpdateBlockCanCommitOverlap(property: Uuid, first: Uuid, second: Uuid)
    returns (db: Db, request: BookingRequest)
    requires first != second
    ensures ValidDb(db) && 2 in db.bookings && 1 in db.bookings
    ensures !ConflictsWithActive(db.bookings, 2, property, db.bookings[2].beginAt, db.bookings[2].endAt)
    ensures UpdateBlock(db, Some(second), request).0.Ok?
    ensures var after := UpdateBlock(db, Some(second), request).1;
            && 1 in after.bookings && 2 in after.bookings
            && after.bookings[1].status == BOOKED && after.bookings[2].status == BOOKED
            && after.bookings[1].property == property && after.bookings[2].property == property
            && DatesOverlap(after.bookings[2].beginAt, after.bookings[2].endAt, after.bookings[1])
  {
    var row1 := BookingRecord(1, first, property, BOOKED, 1, 2, []);
    var row2 := BookingRecord(2, second, property, BOOKED, 10, 11, []);
    db := Db(map[1 := row1, 2 := row2], 3, {}, 1, {property});
    request := BookingRequest(property, 1, 2, []);
    StoredRowIsFound(db.bookings, 2);
    assert !DatesOverlap(10, 11, row1);
    assert !ConflictsWithActive(db.bookings, 2, property, 10, 11);
  }
}
