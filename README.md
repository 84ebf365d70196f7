# booking-api reservation core, modelled in Dafny

This project models the reservation engine of booking-api, the service behind its
booking and block endpoints. Bookings and blocks are both stored as `Booking` records, and
the record's status says which kind it is: BOOKED and CANCELED mean a booking, BLOCKED means
a block. The model covers four parts of the Java code:

- **`BookingRepository`** (`repository.dfy`). `hasOverlappingDates` is one existence query
  over the stored rows. The rows are a map from id to record, and uuids are unique.
  `findByUuid` returns the row that has a given uuid.
- **`BookingHelper`** (`helper.dfy`). It holds:
  - the overlap check, which fails with the overlap `BusinessException`;
  - the lookup from an identifier to a row, with its three errors;
  - the role predicates `isBooking`, `isBlock`, `isNotBooking` and `isNotBlock`;
  - `mergeEntityToUpdate`, which changes a `Booking` entity object in place.
- **`BookingService` and `BlockService`** (`booking_service.dfy`, `block_service.dfy`).
  Each is a class holding the `Database` object. Every method runs the source's steps in
  the source's order: resolve the identifier, check the status guard, check for overlaps,
  clean up guests and merge, then save or delete.
- **What those services do, as values** (`booking_workflow.dfy`, `block_workflow.dfy`).
  - Each method is proved equal to a function from the old database value to the pair
    (reply, new database value).
  - The lemmas about those functions state the properties. Every operation keeps the
    table invariants. Failures change nothing. Cancel then rebook restores the database.
    A created booking blocks its own range. A deleted row is gone. updateBlock can commit
    an overlap.

The stored state lives in `store.dfy`, both as a value (`Db`) and as the object that holds
it (`Database`). It has:

- the BOOKING table, keyed by id, with its id sequence;
- the ids present in the GUEST table, with the guest sequence;
- the uuids present in the PROPERTY table.

`repository.save` follows the `CascadeType.ALL` on `Booking.guests`. Every guest that has no
id yet gets the next value of the guest sequence, in list order. `repository.delete` removes
the record's guest ids.

A Java exception becomes an `Err`/`Fail` value. It carries the exception class
(`ParameterValidation`, `ObjectNotFound`, `Business`, or the uncaught `IllegalArgument`)
and the exact message text.

The status guards follow the code as written, not the guard messages:

- `deleteBooking` rejects BOOKED and CANCELED, so it deletes only blocks.
- `updateBooking` and `cancelBooking` reject only CANCELED, so they let BLOCKED through.
- `rebookBooking` rejects only BOOKED.
- `updateBlock` and `deleteBlock` reject exactly BLOCKED.

The guard messages, and the service tests where there are any, describe other outcomes in
places. `GuardTable` keeps that intended table apart from the model and proves exactly where
the two tables differ. Tests cover updateBooking, cancelBooking, rebookBooking and
updateBlock; no test calls deleteBooking or deleteBlock, so those rows of the intended table
come from the guard messages alone.

## Model

Paths are relative to the repository root. The constructors of `Store.Database`, `BookingServices.BookingService` and `BlockServices.BlockService` only set up the objects and have no row.

| member | source | states |
|---|---|---|
| Entity.Booking.Load | booking-api-service/src/main/java/com/hostfully/booking/api/helper/BookingHelper.java:43-44 | the entity object the repository hands back carries exactly the fields of the stored row |
| Entity.ParseUuid | booking-api-service/src/main/java/com/hostfully/booking/api/helper/BookingHelper.java:43 | `UUID.fromString` accepts exactly the canonical 8-4-4-4-12 hex text and then yields that identifier |
| Entity.GuestDataOf | booking-api-entity/src/main/java/com/hostfully/booking/api/entity/Guest.java:30-43 | the guest columns other than the id (name, age, email, document type and number) of each guest of a list, in list order and with the same length |
| Repository.FindByUuid | booking-api-repository/src/main/java/com/hostfully/booking/api/repository/BookingRepository.java:18 | present iff some stored row has the uuid, and then it is that stored row (uuids are unique) |
| Repository.DatesOverlap | booking-api-repository/src/main/java/com/hostfully/booking/api/repository/BookingRepository.java:25-29 | (definition) the disjunction of the query's three date clauses: the request starts on or before the stored start and ends on or after it; or it ends on or after the stored end and starts on or before it; or it lies within the stored range |
| Repository.Matches | booking-api-repository/src/main/java/com/hostfully/booking/api/repository/BookingRepository.java:22-29 | (definition) the WHERE clause for one row: its id differs from `:bookingId`, its property uuid is `:propertyUuid`, its status is in `:bookingStatuses`, and the date clauses hold |
| Repository.HasOverlappingDates | booking-api-repository/src/main/java/com/hostfully/booking/api/repository/BookingRepository.java:20-34 | (definition) `COUNT(b) > 0`: some stored row satisfies the WHERE clause |
| Repository.OnlyMatchingRowsCount | booking-api-repository/src/main/java/com/hostfully/booking/api/repository/BookingRepository.java:20-29 | the query's answer depends only on the rows that pass all four tests (id differs, same property, status listed, one date clause); dropping every other row leaves it unchanged |
| Repository.ExcludingOwnIdDropsOwnRow | booking-api-repository/src/main/java/com/hostfully/booking/api/repository/BookingRepository.java:22 | excluding a stored row's own id gives the same answer as asking, with no exclusion, of the table without that row |
| Repository.SentinelExcludesNothing | booking-api-repository/src/main/java/com/hostfully/booking/api/repository/BookingRepository.java:22 | with the create-time id 0 the query is true iff some row on the property with a listed status overlaps, because no stored id is 0 |
| Repository.ThreeClausesAreClosedIntervalOverlap | booking-api-repository/src/main/java/com/hostfully/booking/api/repository/BookingRepository.java:25-29 | for well-formed ranges the three clauses hold iff the two closed ranges share a day |
| Repository.OverlapIsSymmetric | booking-api-repository/src/main/java/com/hostfully/booking/api/repository/BookingRepository.java:25-29 | for well-formed ranges the test gives the same answer with the two ranges swapped |
| Repository.InvertedRangeBreaksEquivalence | booking-api-repository/src/main/java/com/hostfully/booking/api/repository/BookingRepository.java:28 | for an inverted request [5, 1] against a stored day 3, clause 3 holds although the ranges share no day |
| Repository.BoundariesAreInclusive | booking-api-repository/src/main/java/com/hostfully/booking/api/repository/BookingRepository.java:26-27 | a range ending on the stored first day, a range starting on the stored last day, and any single stored day all conflict |
| Repository.ContainmentConflicts | booking-api-repository/src/main/java/com/hostfully/booking/api/repository/BookingRepository.java:26-28 | a range inside the stored range conflicts, and so does one that contains it |
| Repository.DisjointRangesDoNotConflict | booking-api-repository/src/main/java/com/hostfully/booking/api/repository/BookingRepository.java:25-29 | a well-formed range wholly before or wholly after the stored one does not conflict |
| Store.Db.FindProperty | booking-api-service/src/main/java/com/hostfully/booking/api/service/PropertyService.java:20-26 | found iff the text is a well-formed uuid of a stored property; an unknown one gives the Property not-found error; a malformed one escapes as the JDK's IllegalArgumentException; the not-found error itself is raised by the callers at booking-api-service/src/main/java/com/hostfully/booking/api/service/BookingService.java:30-31 and booking-api-service/src/main/java/com/hostfully/booking/api/service/BlockService.java:29-30 |
| Store.NewGuestCount | booking-api-entity/src/main/java/com/hostfully/booking/api/entity/Booking.java:50-55 | the number of guests a save must give ids to, zero exactly when all already have one |
| Store.NewGuestCountOfNewGuests | booking-api-entity/src/main/java/com/hostfully/booking/api/entity/Booking.java:50-55 | a list of fresh copies has every guest to give an id to |
| Store.IdRange | booking-api-entity/src/main/java/com/hostfully/booking/api/entity/Booking.java:50-55 | the guest ids a save takes from the sequence are exactly those from its old value up to, not including, its new value |
| Store.PersistGuests | booking-api-entity/src/main/java/com/hostfully/booking/api/entity/Booking.java:50-55 | the cascaded save keeps order, length and guest fields, keeps persisted guests as they are, and gives the others distinct increasing ids from the sequence |
| Store.PersistedGuestsStayPut | booking-api-entity/src/main/java/com/hostfully/booking/api/entity/Booking.java:50-55 | saving a list whose guests all have ids changes none of them |
| Store.PersistedGuestIds | booking-api-entity/src/main/java/com/hostfully/booking/api/entity/Booking.java:50-55 | after the cascade a guest list holds exactly the ids it already had plus the ids the guest sequence advanced over |
| Store.NewGuestsTakeIdRange | booking-api-entity/src/main/java/com/hostfully/booking/api/entity/Booking.java:50-55 | a list of new guests gets exactly the ids from the sequence's old value up to, not including, its old value plus the list's length |
| Store.GuestIds | booking-api-service/src/main/java/com/hostfully/booking/api/service/BookingService.java:95-97 | the set the stream of `Guest::getId` collects: exactly the ids the guests of the list carry, each carried id is in it and each member is carried by some guest |
| Store.Db.Insert | booking-api-service/src/main/java/com/hostfully/booking/api/service/BookingService.java:39 | (definition) `repository.save` of a new entity: the row goes under the next id with the fresh uuid, the cascade persists its guests, and both sequences advance; `InsertWritesRow` states its contract |
| Store.Db.Save | booking-api-service/src/main/java/com/hostfully/booking/api/service/BookingService.java:54 | (definition) `repository.save` of an entity with an id: its row is overwritten, the cascade persists its new guests, and the guest sequence advances; `SaveWritesRow` states its contract |
| Store.InsertWritesRow | booking-api-service/src/main/java/com/hostfully/booking/api/service/BookingService.java:39 | an insert writes the row under the next id with the fresh uuid and exactly the given property, status, begin and end dates, advances the booking sequence by one, keeps the guests' fields, and gives the saved row its old guest ids plus exactly the new ids from the guest sequence, which are also the ids added to the guest table; the property table is untouched |
| Store.SaveWritesRow | booking-api-service/src/main/java/com/hostfully/booking/api/service/BookingService.java:54 | a save rewrites only the entity's own row, which equals the entity in every field but the guest list (same id, uuid, property, status and dates), leaves the booking sequence alone, keeps the guests' fields, and gives the saved row its old guest ids plus exactly the new ids from the guest sequence, which are also the ids added to the guest table |
| Store.Db.Delete | booking-api-service/src/main/java/com/hostfully/booking/api/service/BookingService.java:87 | `repository.delete`: the entity's row is gone, every other row stays as it was, none of the entity's guest ids remains in the guest table and every other guest id does, and the sequences and properties are unchanged |
| Store.Db.DeleteGuests | booking-api-service/src/main/java/com/hostfully/booking/api/service/GuestService.java:15-17 | `deleteAllById`: none of the given ids remains in the guest table, every other id does, and the booking table, sequences and properties are unchanged |
| Store.InsertKeepsValid | booking-api-entity/src/main/java/com/hostfully/booking/api/entity/Booking.java:28-35 | inserting under the next id with a fresh uuid keeps rows under their ids, ids below the sequence, uuids unique, guests persisted, and blocks without guests (a BLOCKED insert must carry no guests) |
| Store.SaveKeepsValid | booking-api-service/src/main/java/com/hostfully/booking/api/service/BookingService.java:54 | saving an entity loaded from a stored row keeps the table invariants, provided it is not a block with guests |
| Store.DeleteKeepsValid | booking-api-service/src/main/java/com/hostfully/booking/api/service/BookingService.java:87 | deleting a row keeps the table invariants |
| Store.DeleteGuestsKeepsValid | booking-api-service/src/main/java/com/hostfully/booking/api/service/GuestService.java:15-17 | deleting guests by id keeps the table invariants |
| Store.SavePersistedRow | booking-api-service/src/main/java/com/hostfully/booking/api/service/BookingService.java:64-65 | saving an entity whose guests all have ids rewrites exactly its own row and touches nothing else |
| Store.Database.Insert | booking-api-service/src/main/java/com/hostfully/booking/api/service/BookingService.java:39 | save of a new entity, in place: the new row and the new tables are those `Db.Insert` describes |
| Store.Database.Save | booking-api-service/src/main/java/com/hostfully/booking/api/service/BookingService.java:54 | save of an entity that has an id, in place, from the entity's current fields |
| Store.Database.Delete | booking-api-service/src/main/java/com/hostfully/booking/api/service/BookingService.java:87 | delete of the entity's row, cascading to its guests, in place |
| Store.Database.DeleteGuestsById | booking-api-service/src/main/java/com/hostfully/booking/api/service/GuestService.java:15-17 | removes exactly the given ids from the guest table |
| Helper.ValidateOverlappedDates | booking-api-service/src/main/java/com/hostfully/booking/api/helper/BookingHelper.java:30-36 | fails, with the overlap BusinessException message, iff some other BOOKED or BLOCKED row on the property overlaps the range |
| Helper.CanceledRowNeverConflicts | booking-api-service/src/main/java/com/hostfully/booking/api/helper/BookingHelper.java:32 | removing a CANCELED row never changes the check's answer |
| Helper.OtherPropertyNeverConflicts | booking-api-repository/src/main/java/com/hostfully/booking/api/repository/BookingRepository.java:23 | removing a row of another property never changes the check's answer |
| Helper.RewrittenRowKeepsOthersConflicts | booking-api-repository/src/main/java/com/hostfully/booking/api/repository/BookingRepository.java:22 | rewriting the row under the excluded id changes no conflict seen from that id |
| Helper.FindBookingOrElseThrow | booking-api-service/src/main/java/com/hostfully/booking/api/helper/BookingHelper.java:38-48 | null gives the NULL-or-EMPTY ParameterValidationException; a malformed id gives a ParameterValidationException with the parse message; a well-formed id is found iff some row has it, otherwise "The Booking was not found in the Database"; a found row is the stored row |
| Helper.EmptyIdentifierIsMalformed | booking-api-service/src/test/java/com/hostfully/booking/api/helper/BookingHelperTest.java:62-85 | "" and "123Testing456" are reported as malformed, with the parse message, not as null |
| Helper.StoredRowIsFound | booking-api-service/src/main/java/com/hostfully/booking/api/helper/BookingHelper.java:43-44 | looking up a stored row's uuid returns exactly that row |
| Helper.FoundRowIsKeyed | booking-api-service/src/main/java/com/hostfully/booking/api/helper/BookingHelper.java:43-44 | a row the lookup returns is the one stored under its own id |
| Helper.IsBlock | booking-api-service/src/main/java/com/hostfully/booking/api/helper/BookingHelper.java:62-64 | (definition) the status is BLOCKED |
| Helper.IsNotBlock | booking-api-service/src/main/java/com/hostfully/booking/api/helper/BookingHelper.java:66-68 | (definition) the negation of `IsBlock` |
| Helper.IsBooking | booking-api-service/src/main/java/com/hostfully/booking/api/helper/BookingHelper.java:70-72 | (definition) the status is BOOKED or CANCELED |
| Helper.IsNotBooking | booking-api-service/src/main/java/com/hostfully/booking/api/helper/BookingHelper.java:74-76 | (definition) the negation of `IsBooking` |
| Helper.RolesPartitionStatuses | booking-api-service/src/main/java/com/hostfully/booking/api/helper/BookingHelper.java:62-76 | every status is exactly one of booking or block, and the isNot predicates are the complements |
| Helper.CopyGuests | booking-api-service/src/main/java/com/hostfully/booking/api/helper/BookingHelper.java:54-56 | the request guests become new, unpersisted guests with the same fields, in the same order |
| Helper.MergedRecord | booking-api-service/src/main/java/com/hostfully/booking/api/helper/BookingHelper.java:50-60 | the dates come from the request; id, uuid, property and status are kept; the guests are copies of the request's iff the row is BOOKED or CANCELED, and a BLOCKED row keeps its own |
| Helper.MergeEntityToUpdate | booking-api-service/src/main/java/com/hostfully/booking/api/helper/BookingHelper.java:50-60 | changes the given entity in place into the merged row and returns that same entity |
| GuardTable.CodeAndTestsDisagree | booking-api-service/src/test/java/com/hostfully/booking/api/service/BookingServiceTest.java:113-140 | update, cancel and rebook as coded differ from the intended table exactly on BLOCKED rows; delete-booking, update-block and delete-block reject exactly the statuses their guard messages allow. Only update, cancel, rebook and update-block have test expectations, at booking-api-service/src/test/java/com/hostfully/booking/api/service/BookingServiceTest.java:217-229, booking-api-service/src/test/java/com/hostfully/booking/api/service/BookingServiceTest.java:247-259 and booking-api-service/src/test/java/com/hostfully/booking/api/service/BlockServiceTest.java:104-131 as well; no test calls deleteBooking or deleteBlock, so those two rows of the intended table come from the guard messages alone |
| BookingWorkflow.CreateBooking | booking-api-service/src/main/java/com/hostfully/booking/api/service/BookingService.java:29-41 | the property error, or an overlap (exclude id 0) failure iff an active row conflicts, leaves the database unchanged; otherwise a BOOKED row with the next id, the fresh uuid, the requested dates and the request's guests is added and the sequences advance |
| BookingWorkflow.UpdateBooking | booking-api-service/src/main/java/com/hostfully/booking/api/service/BookingService.java:43-56 | lookup errors pass through; the guard fails iff the row is CANCELED; the overlap check uses the requested dates and excludes the row's own id; on success the row keeps its id, uuid, property and status, takes the new dates (and, when BOOKED, the request's guests), and the old guest ids are removed before the new ones are added |
| BookingWorkflow.CancelBooking | booking-api-service/src/main/java/com/hostfully/booking/api/service/BookingService.java:58-66 | lookup errors pass through; the guard fails iff the row is CANCELED; otherwise only that row changes, to status CANCELED, with no overlap check |
| BookingWorkflow.RebookBooking | booking-api-service/src/main/java/com/hostfully/booking/api/service/BookingService.java:68-78 | lookup errors pass through; the guard fails iff the row is BOOKED; the overlap check uses the row's stored dates and excludes its own id; on success only that row changes, to status BOOKED |
| BookingWorkflow.DeleteBooking | booking-api-service/src/main/java/com/hostfully/booking/api/service/BookingService.java:80-88 | lookup errors pass through; the guard fails iff the row is BOOKED or CANCELED; so only a BLOCKED row is deleted, with its guest ids |
| BookingWorkflow.FindBooking | booking-api-service/src/main/java/com/hostfully/booking/api/service/BookingService.java:90-92 | returns the stored row with that uuid whatever its status; a null, malformed or unknown uuid gives the lookup's own error |
| BookingWorkflow.NewGuestsOfMerge | booking-api-service/src/main/java/com/hostfully/booking/api/helper/BookingHelper.java:53-57 | after a merge of a non-BLOCKED row every guest is new and the saved guests carry the request's fields; a BLOCKED row's saved guests carry its old fields |
| BookingWorkflow.CreateBookingKeepsValid | booking-api-service/src/main/java/com/hostfully/booking/api/service/BookingService.java:29-41 | createBooking with a fresh uuid keeps the table invariants |
| BookingWorkflow.UpdateBookingKeepsValid | booking-api-service/src/main/java/com/hostfully/booking/api/service/BookingService.java:43-56 | updateBooking keeps the table invariants |
| BookingWorkflow.CancelBookingKeepsValid | booking-api-service/src/main/java/com/hostfully/booking/api/service/BookingService.java:58-66 | cancelBooking keeps the table invariants |
| BookingWorkflow.RebookBookingKeepsValid | booking-api-service/src/main/java/com/hostfully/booking/api/service/BookingService.java:68-78 | rebookBooking keeps the table invariants |
| BookingWorkflow.DeleteBookingKeepsValid | booking-api-service/src/main/java/com/hostfully/booking/api/service/BookingService.java:80-88 | deleteBooking keeps the table invariants |
| BookingWorkflow.CreatedBookingIsFoundAndHoldsItsDates | booking-api-service/src/main/java/com/hostfully/booking/api/service/BookingService.java:29-41 | a created booking is found under its new uuid, and asking for the same range on the same property again fails with the overlap error |
| BookingWorkflow.CancelFreesTheRange | booking-api-service/src/main/java/com/hostfully/booking/api/service/BookingService.java:58-66 | canceling any row that is not CANCELED, a block included, succeeds and the row stops causing conflicts |
| BookingWorkflow.CancelTwiceFails | booking-api-service/src/main/java/com/hostfully/booking/api/service/BookingService.java:60-62 | a second cancel of the same booking is refused by the guard and changes nothing |
| BookingWorkflow.CancelStoredRow | booking-api-service/src/main/java/com/hostfully/booking/api/service/BookingService.java:58-66 | canceling a stored row that is not CANCELED rewrites that row's status and nothing else |
| BookingWorkflow.RebookStoredRow | booking-api-service/src/main/java/com/hostfully/booking/api/service/BookingService.java:68-78 | rebooking a stored row that is not BOOKED and whose dates are free rewrites that row's status and nothing else |
| BookingWorkflow.CancelThenRebookRestores | booking-api-service/src/main/java/com/hostfully/booking/api/service/BookingService.java:58-78 | cancel then rebook of a BOOKED row whose dates no other active row takes gives back the original database |
| BookingWorkflow.RebookRestoresCanceledRow | booking-api-service/src/main/java/com/hostfully/booking/api/service/BookingService.java:68-78 | rebooking a just-canceled booking whose dates are free restores the database it was canceled from |
| BookingWorkflow.DeletedBookingIsGone | booking-api-service/src/main/java/com/hostfully/booking/api/service/BookingService.java:80-88 | after a successful deleteBooking, looking up the uuid gives the Booking not-found error |
| BookingWorkflow.UpdatingBlockThroughBookingKeepsGuests | booking-api-service/src/main/java/com/hostfully/booking/api/service/BookingService.java:51-54 | updateBooking on a stored block leaves the guest table and guest sequence as they were, and the block keeps no guests |
| BookingWorkflow.UpdatedBookingIsFound | booking-api-service/src/main/java/com/hostfully/booking/api/service/BookingService.java:43-56 | after a successful updateBooking, looking up the uuid returns the updated row |
| BlockWorkflow.CreateBlock | booking-api-service/src/main/java/com/hostfully/booking/api/service/BlockService.java:28-41 | the property error, or an overlap failure iff an active row conflicts, leaves the database unchanged; otherwise a BLOCKED row with the requested dates and no guests is added, whatever guests were requested |
| BlockWorkflow.UpdateBlock | booking-api-service/src/main/java/com/hostfully/booking/api/service/BlockService.java:43-56 | lookup errors pass through; the guard fails iff the row is BLOCKED; the overlap check uses the row's stored dates, not the requested ones; on success the row takes the new dates and new copies of the request's guests, and no guest is removed |
| BlockWorkflow.DeleteBlock | booking-api-service/src/main/java/com/hostfully/booking/api/service/BlockService.java:58-65 | lookup errors pass through; the guard fails iff the row is BLOCKED; any other row is deleted, with no overlap check |
| BlockWorkflow.FindBlock | booking-api-service/src/main/java/com/hostfully/booking/api/service/BlockService.java:67-74 | returns the row iff it is BLOCKED; a stored row of another status gives the Booking not-found error; a null, malformed or unknown uuid gives the lookup's own error |
| BlockWorkflow.CreateBlockKeepsValid | booking-api-service/src/main/java/com/hostfully/booking/api/service/BlockService.java:28-41 | createBlock with a fresh uuid keeps the table invariants |
| BlockWorkflow.UpdateBlockKeepsValid | booking-api-service/src/main/java/com/hostfully/booking/api/service/BlockService.java:43-56 | updateBlock keeps the table invariants |
| BlockWorkflow.DeleteBlockKeepsValid | booking-api-service/src/main/java/com/hostfully/booking/api/service/BlockService.java:58-65 | deleteBlock keeps the table invariants |
| BlockWorkflow.UpdateBlockIgnoresRequestedDates | booking-api-service/src/main/java/com/hostfully/booking/api/service/BlockService.java:51 | whether updateBlock fails, and with which error, does not depend on the request at all |
| BlockWorkflow.FoundBlockHasNoGuests | booking-api-service/src/main/java/com/hostfully/booking/api/service/BlockService.java:36-37 | a block the block lookup returns never has guests, because createBlock stores it with none and no operation adds any |
| BlockWorkflow.UpdateBlockCanCommitOverlap | booking-api-service/src/main/java/com/hostfully/booking/api/service/BlockService.java:51-54 | there is a valid database where updateBlock succeeds and leaves two BOOKED rows of one property overlapping |
| BlockWorkflow.CreatedBlockIsOnlyDeletedAsBooking | booking-api-service/src/main/java/com/hostfully/booking/api/service/BlockService.java:47-64 | a created block is found by the block lookup, is refused by updateBlock and deleteBlock, and is removed by deleteBooking |
| BookingServices.BookingService.CreateBooking | booking-api-service/src/main/java/com/hostfully/booking/api/service/BookingService.java:29-41 | the method's reply and new tables are those of `BookingWorkflow.CreateBooking`, and the invariants hold |
| BookingServices.BookingService.UpdateBooking | booking-api-service/src/main/java/com/hostfully/booking/api/service/BookingService.java:43-56 | loads the row as an entity, merges in place and saves; reply and new tables are those of `BookingWorkflow.UpdateBooking` |
| BookingServices.BookingService.CancelBooking | booking-api-service/src/main/java/com/hostfully/booking/api/service/BookingService.java:58-66 | sets the loaded entity's status in place and saves; reply and new tables are those of `BookingWorkflow.CancelBooking` |
| BookingServices.BookingService.RebookBooking | booking-api-service/src/main/java/com/hostfully/booking/api/service/BookingService.java:68-78 | reply and new tables are those of `BookingWorkflow.RebookBooking` |
| BookingServices.BookingService.DeleteBooking | booking-api-service/src/main/java/com/hostfully/booking/api/service/BookingService.java:80-88 | removes the guests, then deletes; reply and new tables are those of `BookingWorkflow.DeleteBooking` |
| BookingServices.BookingService.FindByUuid | booking-api-service/src/main/java/com/hostfully/booking/api/service/BookingService.java:90-92 | returns `BookingWorkflow.FindBooking` of the current tables |
| BookingServices.BookingService.RemoveDetachedGuests | booking-api-service/src/main/java/com/hostfully/booking/api/service/BookingService.java:94-99 | removes exactly the ids of the entity's guests from the guest table |
| BlockServices.BlockService.CreateBlock | booking-api-service/src/main/java/com/hostfully/booking/api/service/BlockService.java:28-41 | reply and new tables are those of `BlockWorkflow.CreateBlock`, and the invariants hold |
| BlockServices.BlockService.UpdateBlock | booking-api-service/src/main/java/com/hostfully/booking/api/service/BlockService.java:43-56 | loads, merges in place and saves; reply and new tables are those of `BlockWorkflow.UpdateBlock` |
| BlockServices.BlockService.DeleteBlock | booking-api-service/src/main/java/com/hostfully/booking/api/service/BlockService.java:58-65 | reply and new tables are those of `BlockWorkflow.DeleteBlock` |
| BlockServices.BlockService.FindByUuid | booking-api-service/src/main/java/com/hostfully/booking/api/service/BlockService.java:67-74 | returns `BlockWorkflow.FindBlock` of the current tables |

## Left out

- Controllers, the exception handler and HTTP status mapping: routing only, outside the core.
- Field validation of the request objects (`@NotNull`, sizes, `@FutureOrPresent`) runs before the core is reached and depends on the wall clock. Requests are taken as they arrive.
- ModelMapper: the request-to-entity and entity-to-response conversions are field copies. The response is the saved row itself, and the guest copy is `CopyGuests`.
- `UUID.randomUUID()` in `@PrePersist` becomes a parameter, `freshUuid`. The create methods require that no stored row already has it.
- `UUID.fromString` accepts only the canonical 8-4-4-4-12 text here. The JDK also accepts other non-canonical forms up to 36 characters (shorter components, dashes in other places, a leading sign on a component), and it normalises case. The model keeps one message for every rejection, "Invalid UUID string: " followed by the input; the JDK words some rejections differently.
- Property rows are a set of uuids, and only their existence matters.
- `Property.isEmpty` and the `orElseGet(Property::new)` indirection are left out: they only turn an absent row into an empty `Optional`.
- The guest table is a set of ids. A guest's other columns, and whether every id a booking row holds is still in the guest table, are not tracked as an invariant.
- Dates are whole days (`int`). `LocalDate` arithmetic and calendars are left out.
- Java's detached-entity and persistence-context behaviour is reduced to three steps: load the row into a new `Booking` object, change it, save its fields. Flushing, dirty checking and transactions are left out.
- The race between two concurrent requests that both pass the overlap check before either saves is concurrency, which this model does not have.
- BookingWorkflow.CancelBooking: the new database is stated only when all the row's guests already carry ids. Every stored row satisfies this under the table invariants, and `CancelStoredRow` states the full result for stored rows.
- BookingWorkflow.RebookBooking: the new database is stated only when all the row's guests already carry ids, as for cancel. `RebookStoredRow` states the full result for stored rows.
- BookingWorkflow.UpdateBooking: for a BLOCKED row, the function's own contract fixes the guest sequence's advance only through the guest-table equation, since it holds for any database. Under the table invariants a block has no guests, and `UpdatingBlockThroughBookingKeepsGuests` states that the count is zero and the guest table is unchanged.
- The service tests' Mockito stubs of `isNotBooking` and `isNotBlock` describe an older version of the guards. They, together with the guard messages for the two delete operations that no test covers, appear only as `GuardTable.RejectedByTests` and are not used by the services.
