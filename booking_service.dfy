/** BookingService: each operation loads the stored row into an entity object, checks it,
    changes it in place and hands it to the database. Every method is proved to do exactly
    what the matching BookingWorkflow function says, and to keep the table invariants. */
module BookingServices {
  import opened Exceptions
  import opened Entity
  import opened Store
  import opened Helper
  import BookingWorkflow

  class BookingService {
    const store: Database

    constructor (store: Database)
      ensures this.store == store
    {
      this.store := store;
    }

    /** createBooking; `freshUuid` stands for the UUID.randomUUID() of the entity's @PrePersist. */
    method CreateBooking(resource: BookingRequest, freshUuid: Uuid) returns (r: Result<BookingRecord>)
      requires store.Valid() && FreshUuid(store.State(), freshUuid)
      modifies store
      ensures (r, store.State()) == BookingWorkflow.CreateBooking(old(store.State()), resource, freshUuid)
      ensures store.Valid()
    {
      BookingWorkflow.CreateBookingKeepsValid(store.State(), resource, freshUuid);
      var property := store.State().FindProperty(resource.propertyId);
      if property.Err? {
        return Err(property.error);
      }
      var check := ValidateOverlappedDates(store.bookings, 0, property.value, resource.beginAt, resource.endAt);
      if check.Fail? {
        return Err(check.error);
      }
      var persisted := store.Insert(property.value, BOOKED, resource.beginAt, resource.endAt,
                                    CopyGuests(resource.guests), freshUuid);
      r := Ok(persisted);
    }

    method UpdateBooking(uuid: Option<string>, resource: BookingRequest) returns (r: Result<BookingRecord>)
      requires store.Valid()
      modifies store
      ensures (r, store.State()) == BookingWorkflow.UpdateBooking(old(store.State()), uuid, resource)
      ensures store.Valid()
    {
      ghost var db := store.State();
      BookingWorkflow.UpdateBookingKeepsValid(db, uuid, resource);
      var found := FindBookingOrElseThrow(store.bookings, uuid);
      if found.Err? {
        return Err(found.error);
      }
      var booking := new Booking.Load(found.value);
      if IsBooking(booking.status) && booking.status != BOOKED {
        return Err(Business(BookingWorkflow.UPDATE_MESSAGE));
      }
      var check := ValidateOverlappedDates(store.bookings, booking.id, booking.property, resource.beginAt, resource.endAt);
      if check.Fail? {
        return Err(check.error);
      }
      RemoveDetachedGuests(booking);
      ghost var cleaned := store.State();
      assert cleaned == db.DeleteGuests(GuestIds(found.value.guests));
      var merged := MergeEntityToUpdate(resource, booking);
      assert merged.Snapshot() == MergedRecord(resource, found.value);
      var updated := store.Save(merged);
      assert (updated, store.State()) == cleaned.Save(MergedRecord(resource, found.value));
      r := Ok(updated);
    }

    method CancelBooking(uuid: Option<string>) returns (r: Outcome)
      requires store.Valid()
      modifies store
      ensures (r, store.State()) == BookingWorkflow.CancelBooking(old(store.State()), uuid)
      ensures store.Valid()
    {
      BookingWorkflow.CancelBookingKeepsValid(store.State(), uuid);
      var found := FindBookingOrElseThrow(store.bookings, uuid);
      if found.Err? {
        return Fail(found.error);
      }
      var booking := new Booking.Load(found.value);
      if IsBooking(booking.status) && booking.status != BOOKED {
        return Fail(Business(BookingWorkflow.CANCEL_MESSAGE));
      }
      booking.status := CANCELED;
      var _ := store.Save(booking);
      r := Pass;
    }

    method RebookBooking(uuid: Option<string>) returns (r: Outcome)
      requires store.Valid()
      modifies store
      ensures (r, store.State()) == BookingWorkflow.RebookBooking(old(store.State()), uuid)
      ensures store.Valid()
    {
      BookingWorkflow.RebookBookingKeepsValid(store.State(), uuid);
      var found := FindBookingOrElseThrow(store.bookings, uuid);
      if found.Err? {
        return Fail(found.error);
      }
      var booking := new Booking.Load(found.value);
      if IsBooking(booking.status) && booking.status != CANCELED {
        return Fail(Business(BookingWorkflow.REBOOK_MESSAGE));
      }
      var check := ValidateOverlappedDates(store.bookings, booking.id, booking.property, booking.beginAt, booking.endAt);
      if check.Fail? {
        return Fail(check.error);
      }
      booking.status := BOOKED;
      var _ := store.Save(booking);
      r := Pass;
    }

    method DeleteBooking(uuid: Option<string>) returns (r: Outcome)
      requires store.Valid()
      modifies store
      ensures (r, store.State()) == BookingWorkflow.DeleteBooking(old(store.State()), uuid)
      ensures store.Valid()
    {
      BookingWorkflow.DeleteBookingKeepsValid(store.State(), uuid);
      var found := FindBookingOrElseThrow(store.bookings, uuid);
      if found.Err? {
        return Fail(found.error);
      }
      var booking := new Booking.Load(found.value);
      if IsBooking(booking.status) {
        return Fail(Business(BookingWorkflow.DELETE_MESSAGE));
      }
      RemoveDetachedGuests(booking);
      store.Delete(booking);
      r := Pass;
    }

    method FindByUuid(uuid: Option<string>) returns (r: Result<BookingRecord>)
      requires store.Valid()
      ensures r == BookingWorkflow.FindBooking(store.State(), uuid)
    {
      r := FindBookingOrElseThrow(store.bookings, uuid);
    }

    /** removeDetachedGuests: deletes, by id, every guest the entity holds. */
    method RemoveDetachedGuests(booking: Booking)
      modifies store
      ensures store.State() == old(store.State()).DeleteGuests(GuestIds(booking.guests))
    {
      store.DeleteGuestsById(GuestIds(booking.guests));
    }
  }
}
