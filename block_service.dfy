/** BlockService: the same load, check, change and save steps for blocks. Every method is
    proved to do exactly what the matching BlockWorkflow function says, and to keep the
    table invariants. */
module BlockServices {
  import opened Exceptions
  import opened Entity
  import opened Store
  import opened Helper
  import BlockWorkflow

  class BlockService {
    const store: Database

    constructor (store: Database)
      ensures this.store == store
    {
      this.store := store;
    }

    /** createBlock; `freshUuid` stands for the UUID.randomUUID() of the entity's @PrePersist. */
    method CreateBlock(resource: BookingRequest, freshUuid: Uuid) returns (r: Result<BookingRecord>)
      requires store.Valid() && FreshUuid(store.State(), freshUuid)
      modifies store
      ensures (r, store.State()) == BlockWorkflow.CreateBlock(old(store.State()), resource, freshUuid)
      ensures store.Valid()
    {
      BlockWorkflow.CreateBlockKeepsValid(store.State(), resource, freshUuid);
      var property := store.State().FindProperty(resource.propertyId);
      if property.Err? {
        return Err(property.error);
      }
      var check := ValidateOverlappedDates(store.bookings, 0, property.value, resource.beginAt, resource.endAt);
      if check.Fail? {
        return Err(check.error);
      }
      var persisted := store.Insert(property.value, BLOCKED, resource.beginAt, resource.endAt, [], freshUuid);
      r := Ok(persisted);
    }

    method UpdateBlock(uuid: Option<string>, resource: BookingRequest) returns (r: Result<BookingRecord>)
      requires store.Valid()
      modifies store
      ensures (r, store.State()) == BlockWorkflow.UpdateBlock(old(store.State()), uuid, resource)
      ensures store.Valid()
    {
      BlockWorkflow.UpdateBlockKeepsValid(store.State(), uuid, resource);
      var found := FindBookingOrElseThrow(store.bookings, uuid);
      if found.Err? {
        return Err(found.error);
      }
      var booking := new Booking.Load(found.value);
      if IsBlock(booking.status) {
        return Err(Business(BlockWorkflow.UPDATE_BLOCK_MESSAGE));
      }
      var check := ValidateOverlappedDates(store.bookings, booking.id, booking.property, booking.beginAt, booking.endAt);
      if check.Fail? {
        return Err(check.error);
      }
      var merged := MergeEntityToUpdate(resource, booking);
      var updated := store.Save(merged);
      r := Ok(updated);
    }

    method DeleteBlock(uuid: Option<string>) returns (r: Outcome)
      requires store.Valid()
      modifies store
      ensures (r, store.State()) == BlockWorkflow.DeleteBlock(old(store.State()), uuid)
      ensures store.Valid()
    {
      BlockWorkflow.DeleteBlockKeepsValid(store.State(), uuid);
      var found := FindBookingOrElseThrow(store.bookings, uuid);
      if found.Err? {
        return Fail(found.error);
      }
      var booking := new Booking.Load(found.value);
      if IsBlock(booking.status) {
        return Fail(Business(BlockWorkflow.DELETE_BLOCK_MESSAGE));
      }
      store.Delete(booking);
      r := Pass;
    }

    method FindByUuid(uuid: Option<string>) returns (r: Result<BookingRecord>)
      requires store.Valid()
      ensures r == BlockWorkflow.FindBlock(store.State(), uuid)
    {
      var block := FindBookingOrElseThrow(store.bookings, uuid);
      if block.Err? {
        return Err(block.error);
      }
      if IsBlock(block.value.status) {
        return Ok(block.value);
      }
      r := Err(ObjectNotFound(BOOKING_NOT_FOUND));
    }
  }
}
