/** What each BookingService operation does to the database, as a function from the
    state before the call to the reply and the state after it: resolve, status guard,
    overlap check, guest clean-up and merge, then save or delete. */
module BookingWorkflow {
  import opened Exceptions
  import opened Entity
  import opened Repository
  import opened Store
  import opened Helper
  import opened GuardTable

  const UPDATE_MESSAGE: string := "You can update bookings only with BOOKED status"
  const CANCEL_MESSAGE: string := "You can cancel bookings only with BOOKED status"
  const REBOOK_MESSAGE: string := "You can rebook bookings with CANCELED status"
  const DELETE_MESSAGE: string := "You can delete bookings only with BOOKED or CANCELED status"

  /** createBooking: the property must resolve, the range must not conflict (the sentinel id 0
      excludes nothing), then a BOOKED row with the requested dates and copies of the
      requested guests is inserted. */
  function CreateBooking(db: Db, resource: BookingRequest, freshUuid: Uuid): (r: (Result<BookingRecord>, Db))
    ensures r.0.Err? ==> r.1 == db
    ensures db.FindProperty(resource.propertyId).Err? ==> r.0 == Err(db.FindProperty(resource.propertyId).error)
    ensures db.FindProperty(resource.propertyId).Ok? ==>
              (r.0.Err? <==> ConflictsWithActive(db.bookings, 0, resource.propertyId, resource.beginAt, resource.endAt))
    ensures db.FindProperty(resource.propertyId).Ok? && r.0.Err? ==> r.0.error == Business(OVERLAP_MESSAGE)
    ensures r.0.Ok? ==>
              && r.0.value == BookingRecord(db.nextId, freshUuid, resource.propertyId, BOOKED,
                                            resource.beginAt, resource.endAt, r.0.value.guests)
              && GuestDataOf(r.0.value.guests) == resource.guests
              && GuestIds(r.0.value.guests) == IdRange(db.nextGuestId, |resource.guests|)
              && r.1.bookings == db.bookings[db.nextId := r.0.value]
              && r.1.nextId == db.nextId + 1
              && r.1.guestIds == db.guestIds + IdRange(db.nextGuestId, |resource.guests|)
              && r.1.nextGuestId == db.nextGuestId + |resource.guests|
              && r.1.properties == db.properties
  {
    match db.FindProperty(resource.propertyId)
    case Err(e) => (Err(e), db)
    case Ok(property) =>
      match ValidateOverlappedDates(db.bookings, 0, property, resource.beginAt, resource.endAt)
      case Fail(e) => (Err(e), db)
      case Pass =>
        var guests := CopyGuests(resource.guests);
        NewGuestCountOfNewGuests(guests);
        NewGuestsTakeIdRange(guests, db.nextGuestId);
        assert GuestDataOf(PersistGuests(guests, db.nextGuestId)) == resource.guests;
        var (persisted, db') := db.Insert(property, BOOKED, resource.beginAt, resource.endAt, guests, freshUuid);
        (Ok(persisted), db')
  }

  /** updateBooking: only a CANCELED row is refused by the guard; the requested range is
      checked against every other row; then the old guests are deleted, the dates (and, for
      the booking role, the guests) merged, and the row saved. */
  function UpdateBooking(db: Db, uuid: Option<string>, resource: BookingRequest): (r: (Result<BookingRecord>, Db))
    requires UniqueUuids(db.bookings)
    ensures r.0.Err? ==> r.1 == db
    ensures var found := FindBookingOrElseThrow(db.bookings, uuid);
            found.Err? ==> r.0 == Err(found.error)
    ensures var found := FindBookingOrElseThrow(db.bookings, uuid);
            found.Ok? ==> (r.0 == Err(Business(UPDATE_MESSAGE)) <==> RejectedByCode(UpdateBookingOp, found.value.status))
    ensures var found := FindBookingOrElseThrow(db.bookings, uuid);
            found.Ok? && !RejectedByCode(UpdateBookingOp, found.value.status) ==>
              && (r.0.Err? <==> ConflictsWithActive(db.bookings, found.value.id, found.value.property,
                                                    resource.beginAt, resource.endAt))
              && (r.0.Err? ==> r.0.error == Business(OVERLAP_MESSAGE))
    ensures var found := FindBookingOrElseThrow(db.bookings, uuid);
            r.0.Ok? ==>
              && found.Ok?
              && r.0.value.id == found.value.id && r.0.value.uuid == found.value.uuid
              && r.0.value.property == found.value.property && r.0.value.status == found.value.status
              && r.0.value.beginAt == resource.beginAt && r.0.value.endAt == resource.endAt
              && (found.value.status == BOOKED ==> GuestDataOf(r.0.value.guests) == resource.guests)
              && (found.value.status == BOOKED ==> GuestIds(r.0.value.guests) == IdRange(db.nextGuestId, |resource.guests|))
              && (found.value.status == BLOCKED ==> GuestDataOf(r.0.value.guests) == GuestDataOf(found.value.guests))
              && r.1.bookings == db.bookings[found.value.id := r.0.value]
              && r.1.nextId == db.nextId && r.1.properties == db.properties
              && r.1.nextGuestId >= db.nextGuestId
              && (found.value.status == BOOKED ==> r.1.nextGuestId == db.nextGuestId + |resource.guests|)
              && r.1.guestIds == (db.guestIds - GuestIds(found.value.guests))
                                 + IdRange(db.nextGuestId, r.1.nextGuestId - db.nextGuestId)
  {
    match FindBookingOrElseThrow(db.bookings, uuid)
    case Err(e) => (Err(e), db)
    case Ok(booking) =>
      if IsBooking(booking.status) && booking.status != BOOKED then
        (Err(Business(UPDATE_MESSAGE)), db)
      else
        match ValidateOverlappedDates(db.bookings, booking.id, booking.property, resource.beginAt, resource.endAt)
        case Fail(e) => (Err(e), db)
        case Pass =>
          var cleaned := db.DeleteGuests(GuestIds(booking.guests));
          var merged := MergedRecord(resource, booking);
          NewGuestsOfMerge(resource, booking);
          var (updated, db') := cleaned.Save(merged);
          (Ok(updated), db')
  }

  /** cancelBooking: only a CANCELED row is refused; otherwise the row becomes CANCELED, with no
      overlap check. */
  function CancelBooking(db: Db, uuid: Option<string>): (r: (Outcome, Db))
    requires UniqueUuids(db.bookings)
    ensures r.0.Fail? ==> r.1 == db
    ensures var found := FindBookingOrElseThrow(db.bookings, uuid);
            found.Err? ==> r.0 == Fail(found.error)
    ensures var found := FindBookingOrElseThrow(db.bookings, uuid);
            found.Ok? ==>
              && (r.0.Pass? <==> !RejectedByCode(CancelBookingOp, found.value.status))
              && (r.0.Fail? ==> r.0.error == Business(CANCEL_MESSAGE))
    ensures var found := FindBookingOrElseThrow(db.bookings, uuid);
            r.0.Pass? && AllPersisted(found.value.guests) ==>
              r.1 == db.(bookings := db.bookings[found.value.id := found.value.(status := CANCELED)])
  {
    match FindBookingOrElseThrow(db.bookings, uuid)
    case Err(e) => (Fail(e), db)
    case Ok(booking) =>
      if IsBooking(booking.status) && booking.status != BOOKED then
        (Fail(Business(CANCEL_MESSAGE)), db)
      else
        var canceled := booking.(status := CANCELED);
        if AllPersisted(canceled.guests) then SavePersistedRow(db, canceled); (Pass, db.Save(canceled).1)
        else (Pass, db.Save(canceled).1)
  }

  /** rebookBooking: only a BOOKED row is refused; the row's own stored dates are checked against
      every other row; then the row becomes BOOKED. */
  function RebookBooking(db: Db, uuid: Option<string>): (r: (Outcome, Db))
    requires UniqueUuids(db.bookings)
    ensures r.0.Fail? ==> r.1 == db
    ensures var found := FindBookingOrElseThrow(db.bookings, uuid);
            found.Err? ==> r.0 == Fail(found.error)
    ensures var found := FindBookingOrElseThrow(db.bookings, uuid);
            found.Ok? ==> (r.0 == Fail(Business(REBOOK_MESSAGE)) <==> RejectedByCode(RebookBookingOp, found.value.status))
    ensures var found := FindBookingOrElseThrow(db.bookings, uuid);
            found.Ok? && !RejectedByCode(RebookBookingOp, found.value.status) ==>
              && (r.0.Fail? <==> ConflictsWithActive(db.bookings, found.value.id, found.value.property,
                                                     found.value.beginAt, found.value.endAt))
              && (r.0.Fail? ==> r.0.error == Business(OVERLAP_MESSAGE))
    ensures var found := FindBookingOrElseThrow(db.bookings, uuid);
            r.0.Pass? && AllPersisted(found.value.guests) ==>
              r.1 == db.(bookings := db.bookings[found.value.id := found.value.(status := BOOKED)])
  {
    match FindBookingOrElseThrow(db.bookings, uuid)
    case Err(e) => (Fail(e), db)
    case Ok(booking) =>
      if IsBooking(booking.status) && booking.status != CANCELED then
        (Fail(Business(REBOOK_MESSAGE)), db)
      else
        match ValidateOverlappedDates(db.bookings, booking.id, booking.property, booking.beginAt, booking.endAt)
        case Fail(e) => (Fail(e), db)
        case Pass =>
          var rebooked := booking.(status := BOOKED);
          if AllPersisted(rebooked.guests) then SavePersistedRow(db, rebooked); (Pass, db.Save(rebooked).1)
          else (Pass, db.Save(rebooked).1)
  }

  /** deleteBooking: every BOOKED or CANCELED row is refused, so only a BLOCKED row is deleted,
      after its guests' ids have been removed. */
  function DeleteBooking(db: Db, uuid: Option<string>): (r: (Outcome, Db))
    requires UniqueUuids(db.bookings)
    ensures r.0.Fail? ==> r.1 == db
    ensures var found := FindBookingOrElseThrow(db.bookings, uuid);
            found.Err? ==> r.0 == Fail(found.error)
    ensures var found := FindBookingOrElseThrow(db.bookings, uuid);
            found.Ok? ==>
              && (r.0.Pass? <==> !RejectedByCode(DeleteBookingOp, found.value.status))
              && (r.0.Fail? ==> r.0.error == Business(DELETE_MESSAGE))
    ensures var found := FindBookingOrElseThrow(db.bookings, uuid);
            r.0.Pass? ==>
              && found.value.status == BLOCKED
              && r.1 == db.(bookings := db.bookings - {found.value.id},
                            guestIds := db.guestIds - GuestIds(found.value.guests))
  {
    match FindBookingOrElseThrow(db.bookings, uuid)
    case Err(e) => (Fail(e), db)
    case Ok(booking) =>
      if IsBooking(booking.status) then
        (Fail(Business(DELETE_MESSAGE)), db)
      else
        (Pass, db.DeleteGuests(GuestIds(booking.guests)).Delete(booking))
  }

  /** BookingService.findByUUID: the stored row whatever its status. */
  function FindBooking(db: Db, uuid: Option<string>): (r: Result<BookingRecord>)
    requires UniqueUuids(db.bookings)
    ensures var found := FindBookingOrElseThrow(db.bookings, uuid);
            found.Err? ==> r == Err(found.error)
    ensures r.Ok? <==> uuid.Some? && exists k :: k in db.bookings && db.bookings[k].uuid == uuid.value
    ensures r.Ok? ==> r.value in db.bookings.Values && r.value.uuid == uuid.value
  {
    FindBookingOrElseThrow(db.bookings, uuid)
  }

  // ---------------------------------------------------------------------------
  // Every operation keeps the table invariants
  // ---------------------------------------------------------------------------

  lemma {:induction false} CreateBookingKeepsValid(db: Db, resource: BookingRequest, freshUuid: Uuid)
    requires ValidDb(db) && FreshUuid(db, freshUuid)
    ensures ValidDb(CreateBooking(db, resource, freshUuid).1)
  {
    var property := db.FindProperty(resource.propertyId);
    if property.Ok? {
      InsertKeepsValid(db, property.value, BOOKED, resource.beginAt, resource.endAt,
                       CopyGuests(resource.guests), freshUuid);
    }
  }

  lemma {:induction false} UpdateBookingKeepsValid(db: Db, uuid: Option<string>, resource: BookingRequest)
    requires ValidDb(db)
    ensures ValidDb(UpdateBooking(db, uuid, resource).1)
  {
    var found := FindBookingOrElseThrow(db.bookings, uuid);
    FoundRowIsKeyed(db.bookings, uuid);
    if found.Ok? {
      var cleaned := db.DeleteGuests(GuestIds(found.value.guests));
      DeleteGuestsKeepsValid(db, GuestIds(found.value.guests));
      SaveKeepsValid(cleaned, MergedRecord(resource, found.value));
    }
  }

  lemma {:induction false} CancelBookingKeepsValid(db: Db, uuid: Option<string>)
    requires ValidDb(db)
    ensures ValidDb(CancelBooking(db, uuid).1)
  {
    var found := FindBookingOrElseThrow(db.bookings, uuid);
    FoundRowIsKeyed(db.bookings, uuid);
    if found.Ok? {
      SaveKeepsValid(db, found.value.(status := CANCELED));
    }
  }

  lemma {:induction false} RebookBookingKeepsValid(db: Db, uuid: Option<string>)
    requires ValidDb(db)
    ensures ValidDb(RebookBooking(db, uuid).1)
  {
    var found := FindBookingOrElseThrow(db.bookings, uuid);
    FoundRowIsKeyed(db.bookings, uuid);
    if found.Ok? {
      SaveKeepsValid(db, found.value.(status := BOOKED));
    }
  }

  lemma {:induction false} DeleteBookingKeepsValid(db: Db, uuid: Option<string>)
    requires ValidDb(db)
    ensures ValidDb(DeleteBooking(db, uuid).1)
  {
    var found := FindBookingOrElseThrow(db.bookings, uuid);
    if found.Ok? {
      DeleteGuestsKeepsValid(db, GuestIds(found.value.guests));
      DeleteKeepsValid(db.DeleteGuests(GuestIds(found.value.guests)), found.value);
    }
  }

  // ---------------------------------------------------------------------------
  // How the operations fit together
  // ---------------------------------------------------------------------------

  /** A created booking is found under the uuid it was given, and asking for the same range
      on the same property again is refused as an overlap. */
  lemma {:induction false} CreatedBookingIsFoundAndHoldsItsDates(db: Db, resource: BookingRequest,
                                                                 freshUuid: Uuid, otherUuid: Uuid)
    requires ValidDb(db) && FreshUuid(db, freshUuid)
    ensures var c := CreateBooking(db, resource, freshUuid);
            c.0.Ok? ==>
              && ValidDb(c.1)
              && FindBooking(c.1, Some(freshUuid)) == Ok(c.0.value)
              && CreateBooking(c.1, resource, otherUuid) == (Err(Business(OVERLAP_MESSAGE)), c.1)
  {
    var c := CreateBooking(db, resource, freshUuid);
    if c.0.Ok? {
      CreateBookingKeepsValid(db, resource, freshUuid);
      InsertKeepsValid(db, db.FindProperty(resource.propertyId).value, BOOKED, resource.beginAt, resource.endAt,
                       CopyGuests(resource.guests), freshUuid);
      var k := db.nextId;
      assert c.1.bookings[k] == c.0.value;
      StoredRowIsFound(c.1.bookings, k);
      assert c.1.properties == db.properties;
      assert c.1.bookings[k].id != 0 && DatesOverlap(resource.beginAt, resource.endAt, c.1.bookings[k]);
      assert ConflictsWithActive(c.1.bookings, 0, resource.propertyId, resource.beginAt, resource.endAt);
    }
  }

  /** Canceling a row the code lets through (any row not already CANCELED, blocks included)
      takes it out of every later overlap check. */
  lemma {:induction false} CancelFreesTheRange(db: Db, k: nat, excludeId: int, propertyUuid: Uuid,
                                               beginDate: Date, endDate: Date)
    requires ValidDb(db) && k in db.bookings && db.bookings[k].status != CANCELED
    ensures var c := CancelBooking(db, Some(db.bookings[k].uuid));
            && c.0 == Pass
            && (ConflictsWithActive(c.1.bookings, excludeId, propertyUuid, beginDate, endDate)
                <==> ConflictsWithActive(db.bookings - {k}, excludeId, propertyUuid, beginDate, endDate))
  {
    var b := db.bookings[k];
    StoredRowIsFound(db.bookings, k);
    var c := CancelBooking(db, Some(b.uuid));
    assert c.1.bookings == db.bookings[k := b.(status := CANCELED)];
    var rest := db.bookings - {k};
    if ConflictsWithActive(c.1.bookings, excludeId, propertyUuid, beginDate, endDate) {
      var j :| j in c.1.bookings && c.1.bookings[j].id != excludeId && c.1.bookings[j].property == propertyUuid
               && c.1.bookings[j].status != CANCELED && DatesOverlap(beginDate, endDate, c.1.bookings[j]);
      assert j != k;
      assert j in rest && rest[j] == c.1.bookings[j];
    }
    if ConflictsWithActive(rest, excludeId, propertyUuid, beginDate, endDate) {
      var j :| j in rest && rest[j].id != excludeId && rest[j].property == propertyUuid
               && rest[j].status != CANCELED && DatesOverlap(beginDate, endDate, rest[j]);
      assert j in c.1.bookings && c.1.bookings[j] == rest[j];
    }
  }

  /** A BOOKED row cannot be canceled twice: the second call is refused by the guard. */
  lemma {:induction false} CancelTwiceFails(db: Db, k: nat)
    requires ValidDb(db) && k in db.bookings && db.bookings[k].status == BOOKED
    ensures CancelBooking(db, Some(db.bookings[k].uuid)).0 == Pass
    ensures ValidDb(CancelBooking(db, Some(db.bookings[k].uuid)).1)
    ensures var c := CancelBooking(db, Some(db.bookings[k].uuid));
            CancelBooking(c.1, Some(db.bookings[k].uuid)) == (Fail(Business(CANCEL_MESSAGE)), c.1)
  {
    var b := db.bookings[k];
    StoredRowIsFound(db.bookings, k);
    CancelBookingKeepsValid(db, Some(b.uuid));
    var c := CancelBooking(db, Some(b.uuid));
    assert c.1.bookings[k] == b.(status := CANCELED);
    StoredRowIsFound(c.1.bookings, k);
  }

  /** cancelBooking on a stored row that is not CANCELED: it passes and rewrites that row only. */
  lemma {:induction false} CancelStoredRow(db: Db, k: nat)
    requires ValidDb(db) && k in db.bookings && db.bookings[k].status != CANCELED
    ensures CancelBooking(db, Some(db.bookings[k].uuid))
         == (Pass, db.(bookings := db.bookings[k := db.bookings[k].(status := CANCELED)]))
  {
    StoredRowIsFound(db.bookings, k);
  }

  /** rebookBooking on a stored row that is not BOOKED and whose dates are free: it passes and
      rewrites that row only. */
  lemma {:induction false} RebookStoredRow(db: Db, k: nat)
    requires ValidDb(db) && k in db.bookings && db.bookings[k].status != BOOKED
    requires !ConflictsWithActive(db.bookings, k, db.bookings[k].property, db.bookings[k].beginAt, db.bookings[k].endAt)
    ensures RebookBooking(db, Some(db.bookings[k].uuid))
         == (Pass, db.(bookings := db.bookings[k := db.bookings[k].(status := BOOKED)]))
  {
    StoredRowIsFound(db.bookings, k);
  }

  /** Rebooking a booking right after canceling it gives back the database it started from,
      provided no other active row took its dates in between. */
  lemma {:induction false} CancelThenRebookRestores(db: Db, k: nat)
    requires ValidDb(db) && k in db.bookings && db.bookings[k].status == BOOKED
    requires !ConflictsWithActive(db.bookings, k, db.bookings[k].property, db.bookings[k].beginAt, db.bookings[k].endAt)
    ensures CancelBooking(db, Some(db.bookings[k].uuid)).0 == Pass
    ensures ValidDb(CancelBooking(db, Some(db.bookings[k].uuid)).1)
    ensures RebookBooking(CancelBooking(db, Some(db.bookings[k].uuid)).1, Some(db.bookings[k].uuid)) == (Pass, db)
  {
    CancelStoredRow(db, k);
    CancelBookingKeepsValid(db, Some(db.bookings[k].uuid));
    RebookRestoresCanceledRow(db, k);
  }

  lemma {:induction false} RebookRestoresCanceledRow(db: Db, k: nat)
    requires ValidDb(db) && k in db.bookings && db.bookings[k].status == BOOKED
    requires !ConflictsWithActive(db.bookings, k, db.bookings[k].property, db.bookings[k].beginAt, db.bookings[k].endAt)
    requires ValidDb(db.(bookings := db.bookings[k := db.bookings[k].(status := CANCELED)]))
    ensures RebookBooking(db.(bookings := db.bookings[k := db.bookings[k].(status := CANCELED)]), Some(db.bookings[k].uuid))
         == (Pass, db)
  {
    var b := db.bookings[k];
    var canceled := b.(status := CANCELED);
    var db1 := db.(bookings := db.bookings[k := canceled]);
    assert db1.bookings[k] == canceled && canceled.(status := BOOKED) == b;
    RewrittenRowKeepsOthersConflicts(db.bookings, k, canceled, b.property, b.beginAt, b.endAt);
    RebookStoredRow(db1, k);
    RestoringRowGivesBackRows(db.bookings, k, canceled);
    assert db1.(bookings := db1.bookings[k := b]) == db;
  }

  lemma RestoringRowGivesBackRows(rows: Rows, k: nat, row: BookingRecord)
    requires k in rows
    ensures rows[k := row][k := rows[k]] == rows
  {
  }

  /** A row that deleteBooking removed is no longer found. */
  lemma {:induction false} DeletedBookingIsGone(db: Db, uuid: Option<string>)
    requires ValidDb(db)
    ensures ValidDb(DeleteBooking(db, uuid).1)
    ensures DeleteBooking(db, uuid).0.Pass? ==>
              FindBooking(DeleteBooking(db, uuid).1, uuid) == Err(ObjectNotFound(BOOKING_NOT_FOUND))
  {
    DeleteBookingKeepsValid(db, uuid);
    var d := DeleteBooking(db, uuid);
    FoundRowIsKeyed(db.bookings, uuid);
    if d.0.Pass? {
      var b := FindBookingOrElseThrow(db.bookings, uuid).value;
      forall j | j in d.1.bookings
        ensures d.1.bookings[j].uuid != uuid.value
      {
        assert j != b.id && db.bookings[j] == d.1.bookings[j];
      }
    }
  }

  /** updateBooking on a stored block: blocks carry no guests, so the guest table and its
      sequence are left as they were and the saved block still has no guests. */
  lemma {:induction false} UpdatingBlockThroughBookingKeepsGuests(db: Db, uuid: Option<string>, resource: BookingRequest)
    requires ValidDb(db)
    ensures var found := FindBookingOrElseThrow(db.bookings, uuid);
            var u := UpdateBooking(db, uuid, resource);
            u.0.Ok? && found.value.status == BLOCKED ==>
              && u.0.value.guests == []
              && u.1.guestIds == db.guestIds
              && u.1.nextGuestId == db.nextGuestId
  {
    var found := FindBookingOrElseThrow(db.bookings, uuid);
    FoundRowIsKeyed(db.bookings, uuid);
    var u := UpdateBooking(db, uuid, resource);
    if u.0.Ok? && found.value.status == BLOCKED {
      assert found.value.guests == [];
      assert GuestIds(found.value.guests) == {};
      assert NewGuestCount(MergedRecord(resource, found.value).guests) == 0;
      assert IdRange(db.nextGuestId, 0) == {};
    }
  }

  /** An updated row is found under its uuid, carrying the update. */
  lemma {:induction false} UpdatedBookingIsFound(db: Db, uuid: Option<string>, resource: BookingRequest)
    requires ValidDb(db)
    ensures ValidDb(UpdateBooking(db, uuid, resource).1)
    ensures UpdateBooking(db, uuid, resource).0.Ok? ==>
              FindBooking(UpdateBooking(db, uuid, resource).1, uuid) == UpdateBooking(db, uuid, resource).0
  {
    UpdateBookingKeepsValid(db, uuid, resource);
    var u := UpdateBooking(db, uuid, resource);
    FoundRowIsKeyed(db.bookings, uuid);
    if u.0.Ok? {
      var k := u.0.value.id;
      assert u.1.bookings[k] == u.0.value;
      StoredRowIsFound(u.1.bookings, k);
    }
  }

  // ---------------------------------------------------------------------------
  // Helpers of the proofs above
  // ---------------------------------------------------------------------------

  /** How many guests a merge hands to the save as new, and what they carry. */
  lemma NewGuestsOfMerge(resource: BookingRequest, booking: BookingRecord)
    ensures booking.status != BLOCKED ==> NewGuestCount(MergedRecord(resource, booking).guests) == |resource.guests|
    ensures booking.status != BLOCKED ==>
              forall next :: GuestDataOf(PersistGuests(MergedRecord(resource, booking).guests, next)) == resource.guests
    ensures booking.status != BLOCKED ==>
              forall next :: GuestIds(PersistGuests(MergedRecord(resource, booking).guests, next)) == IdRange(next, |resource.guests|)
    ensures booking.status == BLOCKED ==>
              forall next :: GuestDataOf(PersistGuests(MergedRecord(resource, booking).guests, next)) == GuestDataOf(booking.guests)
  {
    var merged := MergedRecord(resource, booking);
    if booking.status != BLOCKED {
      NewGuestCountOfNewGuests(merged.guests);
      forall next ensures GuestDataOf(PersistGuests(merged.guests, next)) == resource.guests {
        var p := PersistGuests(merged.guests, next);
        assert forall i :: 0 <= i < |p| ==> GuestDataOf(p)[i] == resource.guests[i];
      }
      forall next ensures GuestIds(PersistGuests(merged.guests, next)) == IdRange(next, |resource.guests|) {
        NewGuestsTakeIdRange(merged.guests, next);
      }
    } else {
      forall next ensures GuestDataOf(PersistGuests(merged.guests, next)) == GuestDataOf(booking.guests) {
        var p := PersistGuests(merged.guests, next);
        assert forall i :: 0 <= i < |p| ==> GuestDataOf(p)[i] == GuestDataOf(booking.guests)[i];
      }
    }
  }
}
