/** The persistent state the services work against: the BOOKING table with its id
    sequence, the GUEST table (by id) with its sequence, and the PROPERTY table (by
    uuid). `Db` is that state as a value; `Database` is the object that holds it and
    whose save and delete update it in place. */
module Store {
  import opened Exceptions
  import opened Entity
  import opened Repository

  datatype Db = Db(
    bookings: Rows,         // BOOKING, keyed by ID_BOOKING
    nextId: nat,            // next value of SEQ_BOOKING
    guestIds: set<nat>,     // ids present in GUEST
    nextGuestId: nat,       // next value of SEQ_GUEST
    properties: set<Uuid>)  // uuids present in PROPERTY
  {
    /** Saving a brand-new entity: it takes the next id and the given fresh uuid, and its guests are persisted. */
    function Insert(property: Uuid, status: Status, beginAt: Date, endAt: Date,
                    guests: seq<Guest>, freshUuid: Uuid): (BookingRecord, Db)
    {
      var row := BookingRecord(nextId, freshUuid, property, status, beginAt, endAt,
                               PersistGuests(guests, nextGuestId));
      var n := NewGuestCount(guests);
      (row, this.(bookings := bookings[nextId := row],
                  nextId := nextId + 1,
                  guestIds := guestIds + IdRange(nextGuestId, n),
                  nextGuestId := nextGuestId + n))
    }

    /** Saving an entity that already has an id: its row is overwritten and its new guests are persisted. */
    function Save(entity: BookingRecord): (BookingRecord, Db)
    {
      var row := entity.(guests := PersistGuests(entity.guests, nextGuestId));
      var n := NewGuestCount(entity.guests);
      (row, this.(bookings := bookings[entity.id := row],
                  guestIds := guestIds + IdRange(nextGuestId, n),
                  nextGuestId := nextGuestId + n))
    }

    /** Deleting an entity: its row goes, and the removal cascades to its guests. */
    function Delete(entity: BookingRecord): (r: Db)
      ensures entity.id !in r.bookings
      ensures forall k :: k in bookings && k != entity.id ==> k in r.bookings && r.bookings[k] == bookings[k]
      ensures r.bookings.Keys <= bookings.Keys
      ensures r.guestIds !! GuestIds(entity.guests)
      ensures forall x :: x in guestIds && x !in GuestIds(entity.guests) ==> x in r.guestIds
      ensures r.guestIds <= guestIds
      ensures r.nextId == nextId && r.nextGuestId == nextGuestId && r.properties == properties
    {
      this.(bookings := bookings - {entity.id}, guestIds := guestIds - GuestIds(entity.guests))
    }

    /** GuestService.deleteGuestsById. */
    function DeleteGuests(ids: set<nat>): (r: Db)
      ensures r.guestIds !! ids
      ensures forall x :: x in guestIds && x !in ids ==> x in r.guestIds
      ensures r.guestIds <= guestIds
      ensures r.bookings == bookings && r.nextId == nextId && r.nextGuestId == nextGuestId
      ensures r.properties == properties
    {
      this.(guestIds := guestIds - ids)
    }

    /** PropertyService.findByUUID as the workflows use it: a malformed id escapes as the JDK's
        IllegalArgumentException, an unknown one becomes ObjectNotFoundException. */
    function FindProperty(propertyId: string): (r: Result<Uuid>)
      ensures r.Ok? <==> WellFormedUuid(propertyId) && propertyId in properties
      ensures r.Ok? ==> r.value == propertyId
      ensures r.Err? && WellFormedUuid(propertyId) ==> r.error == ObjectNotFound(PROPERTY_NOT_FOUND)
      ensures !WellFormedUuid(propertyId) ==> r == Err(IllegalArgument(InvalidUuidMessage(propertyId)))
    {
      match ParseUuid(propertyId)
      case None => Err(IllegalArgument(InvalidUuidMessage(propertyId)))
      case Some(u) => if u in properties then Ok(u) else Err(ObjectNotFound(PROPERTY_NOT_FOUND))
    }
  }

  /** The table invariants the core relies on: rows sit under their own ids, which come from the
      sequence; uuids are unique; every stored guest has been given an id. */
  ghost predicate ValidDb(db: Db)
  {
    && db.nextId >= 1
    && KeyedById(db.bookings)
    && (forall k :: k in db.bookings ==> k < db.nextId)
    && UniqueUuids(db.bookings)
    && (forall k :: k in db.bookings ==> AllPersisted(db.bookings[k].guests))
    && BlocksHaveNoGuests(db.bookings)
  }

  /** A block never carries guests: createBlock stores it with an empty list, and no other
      operation gives a BLOCKED row guests or makes a row with guests BLOCKED. */
  ghost predicate BlocksHaveNoGuests(rows: Rows)
  {
    forall k :: k in rows && rows[k].status == BLOCKED ==> rows[k].guests == []
  }

  /** `u` is not the uuid of any stored row (what a random UUID is, in practice). */
  ghost predicate FreshUuid(db: Db, u: Uuid)
  {
    forall k :: k in db.bookings ==> db.bookings[k].uuid != u
  }

  predicate AllPersisted(gs: seq<Guest>)
  {
    forall i :: 0 <= i < |gs| ==> gs[i].id.Some?
  }

  /** The number of guests that have not been persisted yet. */
  function NewGuestCount(gs: seq<Guest>): (n: nat)
    ensures n <= |gs|
    ensures n == 0 <==> AllPersisted(gs)
  {
    if gs == [] then 0
    else (if gs[0].id.None? then 1 else 0) + NewGuestCount(gs[1..])
  }

  lemma {:induction false} NewGuestCountOfNewGuests(gs: seq<Guest>)
    requires forall i :: 0 <= i < |gs| ==> gs[i].id.None?
    ensures NewGuestCount(gs) == |gs|
  {
    if gs != [] {
      NewGuestCountOfNewGuests(gs[1..]);
    }
  }

  /** The ids of a guest list, as removeDetachedGuests collects them. */
  function GuestIds(gs: seq<Guest>): (r: set<nat>)
    ensures forall i :: 0 <= i < |gs| && gs[i].id.Some? ==> gs[i].id.value in r
    ensures forall x :: x in r ==> exists i :: 0 <= i < |gs| && gs[i].id == Some(x)
  {
    set i | 0 <= i < |gs| && gs[i].id.Some? :: gs[i].id.value
  }

  /** The ids [from, from + count) taken from a sequence. */
  function IdRange(from: nat, count: nat): (r: set<nat>)
    ensures forall i :: i in r <==> from <= i < from + count
    decreases count
  {
    if count == 0 then {} else {from} + IdRange(from + 1, count - 1)
  }

  /** Cascading a save to the guests: every guest without an id gets the next value of
      the guest sequence, in list order; the others are kept as they are. */
  function {:induction false} PersistGuests(gs: seq<Guest>, next: nat): (r: seq<Guest>)
    ensures |r| == |gs|
    ensures AllPersisted(r)
    ensures forall i :: 0 <= i < |gs| ==> r[i].data == gs[i].data
    ensures forall i :: 0 <= i < |gs| && gs[i].id.Some? ==> r[i] == gs[i]
    ensures forall i :: 0 <= i < |gs| && gs[i].id.None? ==> next <= r[i].id.value < next + NewGuestCount(gs)
    ensures forall i, j :: 0 <= i < j < |gs| && gs[i].id.None? && gs[j].id.None? ==> r[i].id.value < r[j].id.value
  {
    if gs == [] then []
    else
      var head := if gs[0].id.Some? then gs[0] else Guest(Some(next), gs[0].data);
      var rest := PersistGuests(gs[1..], if gs[0].id.Some? then next else next + 1);
      PersistGuestsStep(gs, next, head, rest);
      [head] + rest
  }

  /** The properties PersistGuests promises of its result `r`, bundled for the induction step. */
  ghost predicate PersistedFrom(gs: seq<Guest>, next: nat, r: seq<Guest>)
  {
    && |r| == |gs|
    && AllPersisted(r)
    && (forall i :: 0 <= i < |gs| ==> r[i].data == gs[i].data)
    && (forall i :: 0 <= i < |gs| && gs[i].id.Some? ==> r[i] == gs[i])
    && (forall i :: 0 <= i < |gs| && gs[i].id.None? ==> next <= r[i].id.value < next + NewGuestCount(gs))
    && (forall i, j :: 0 <= i < j < |gs| && gs[i].id.None? && gs[j].id.None? ==> r[i].id.value < r[j].id.value)
  }

  /** One step of the cascade: if the tail was persisted from the sequence value after the
      head's, putting the head in front persists the whole list. */
  lemma PersistGuestsStep(gs: seq<Guest>, next: nat, head: Guest, rest: seq<Guest>)
    requires gs != []
    requires head == if gs[0].id.Some? then gs[0] else Guest(Some(next), gs[0].data)
    requires PersistedFrom(gs[1..], if gs[0].id.Some? then next else next + 1, rest)
    ensures PersistedFrom(gs, next, [head] + rest)
  {
    PersistGuestsStepPointwise(gs, next, head, rest);
    PersistGuestsStepOrder(gs, next, head, rest);
  }

  lemma PersistGuestsStepPointwise(gs: seq<Guest>, next: nat, head: Guest, rest: seq<Guest>)
    requires gs != []
    requires head == if gs[0].id.Some? then gs[0] else Guest(Some(next), gs[0].data)
    requires PersistedFrom(gs[1..], if gs[0].id.Some? then next else next + 1, rest)
    ensures forall i :: 0 <= i < |gs| ==> ([head] + rest)[i].id.Some? && ([head] + rest)[i].data == gs[i].data
    ensures forall i :: 0 <= i < |gs| && gs[i].id.Some? ==> ([head] + rest)[i] == gs[i]
    ensures forall i :: 0 <= i < |gs| && gs[i].id.None? ==>
              next <= ([head] + rest)[i].id.value < next + NewGuestCount(gs)
  {
    var r := [head] + rest;
    var tail := gs[1..];
    assert NewGuestCount(gs) == (if gs[0].id.None? then 1 else 0) + NewGuestCount(tail);
    forall i | 0 <= i < |gs|
      ensures r[i].id.Some? && r[i].data == gs[i].data
      ensures gs[i].id.Some? ==> r[i] == gs[i]
      ensures gs[i].id.None? ==> next <= r[i].id.value < next + NewGuestCount(gs)
    {
      if i > 0 {
        assert r[i] == rest[i - 1] && gs[i] == tail[i - 1];
      }
    }
  }

  lemma PersistGuestsStepOrder(gs: seq<Guest>, next: nat, head: Guest, rest: seq<Guest>)
    requires gs != []
    requires head == if gs[0].id.Some? then gs[0] else Guest(Some(next), gs[0].data)
    requires PersistedFrom(gs[1..], if gs[0].id.Some? then next else next + 1, rest)
    ensures forall i, j :: 0 <= i < j < |gs| && gs[i].id.None? && gs[j].id.None? ==>
              ([head] + rest)[i].id.value < ([head] + rest)[j].id.value
  {
    var r := [head] + rest;
    var tail := gs[1..];
    forall i, j | 0 <= i < j < |gs| && gs[i].id.None? && gs[j].id.None?
      ensures r[i].id.value < r[j].id.value
    {
      assert r[j] == rest[j - 1] && gs[j] == tail[j - 1];
      if i > 0 {
        assert r[i] == rest[i - 1] && gs[i] == tail[i - 1];
      }
    }
  }

  lemma {:induction false} PersistedGuestsStayPut(gs: seq<Guest>, next: nat)
    requires AllPersisted(gs)
    ensures PersistGuests(gs, next) == gs
  {
    var r := PersistGuests(gs, next);
    assert forall i :: 0 <= i < |gs| ==> r[i] == gs[i];
  }

  /** After the cascade a guest list holds the ids it already had, plus exactly the ids
      [next, next + NewGuestCount(gs)) drawn from the sequence. */
  lemma {:induction false} PersistedGuestIds(gs: seq<Guest>, next: nat)
    ensures GuestIds(PersistGuests(gs, next)) == GuestIds(gs) + IdRange(next, NewGuestCount(gs))
  {
    if gs != [] {
      var tail := gs[1..];
      assert gs == [gs[0]] + tail;
      var n := NewGuestCount(tail);
      if gs[0].id.Some? {
        var rest := PersistGuests(tail, next);
        assert PersistGuests(gs, next) == [gs[0]] + rest;
        PersistedGuestIds(tail, next);
        IdsOfKeptHead(gs[0], tail, rest, IdRange(next, n));
      } else {
        var rest := PersistGuests(tail, next + 1);
        var head := Guest(Some(next), gs[0].data);
        assert PersistGuests(gs, next) == [head] + rest;
        PersistedGuestIds(tail, next + 1);
        IdsOfNewHead(gs[0], head, tail, rest, next, n);
      }
    }
  }

  /** Induction step of PersistedGuestIds for a head that already has an id. */
  lemma IdsOfKeptHead(g: Guest, tail: seq<Guest>, rest: seq<Guest>, added: set<nat>)
    requires g.id.Some?
    requires GuestIds(rest) == GuestIds(tail) + added
    ensures GuestIds([g] + rest) == GuestIds([g] + tail) + added
  {
    GuestIdsOfCons(g, tail);
    GuestIdsOfCons(g, rest);
    Regroup({g.id.value}, {g.id.value}, GuestIds(tail), added, added);
  }

  /** Induction step of PersistedGuestIds for a new head, which takes the id `next`. */
  lemma IdsOfNewHead(g: Guest, head: Guest, tail: seq<Guest>, rest: seq<Guest>, next: nat, n: nat)
    requires g.id.None? && head.id == Some(next)
    requires GuestIds(rest) == GuestIds(tail) + IdRange(next + 1, n)
    ensures GuestIds([head] + rest) == GuestIds([g] + tail) + IdRange(next, n + 1)
  {
    GuestIdsOfCons(g, tail);
    GuestIdsOfCons(head, rest);
    assert IdRange(next, n + 1) == {next} + IdRange(next + 1, n);
    Regroup({next}, {}, GuestIds(tail), IdRange(next + 1, n), IdRange(next, n + 1));
  }

  /** Set algebra for the induction steps above, kept apart from the guest-list facts. */
  lemma Regroup(x: set<nat>, y: set<nat>, a: set<nat>, w: set<nat>, z: set<nat>)
    requires x + w == y + z
    ensures x + (a + w) == (y + a) + z
  {
    assert forall e :: e in x + (a + w) <==> e in (y + a) + z;
  }

  /** The cascade keeps every guest's fields. */
  lemma PersistedGuestData(gs: seq<Guest>, next: nat)
    ensures GuestDataOf(PersistGuests(gs, next)) == GuestDataOf(gs)
  {
    var r := PersistGuests(gs, next);
    assert forall i :: 0 <= i < |gs| ==> GuestDataOf(r)[i] == GuestDataOf(gs)[i];
  }

  /** Saving a list of new guests gives them exactly the ids [next, next + |gs|) of the sequence. */
  lemma NewGuestsTakeIdRange(gs: seq<Guest>, next: nat)
    requires forall i :: 0 <= i < |gs| ==> gs[i].id.None?
    ensures GuestIds(PersistGuests(gs, next)) == IdRange(next, |gs|)
  {
    PersistedGuestIds(gs, next);
    NewGuestCountOfNewGuests(gs);
    NoIdsOfNewGuests(gs);
  }

  lemma {:induction false} NoIdsOfNewGuests(gs: seq<Guest>)
    requires forall i :: 0 <= i < |gs| ==> gs[i].id.None?
    ensures GuestIds(gs) == {}
  {
    if gs != [] {
      assert gs == [gs[0]] + gs[1..];
      GuestIdsOfCons(gs[0], gs[1..]);
      NoIdsOfNewGuests(gs[1..]);
    }
  }

  lemma GuestIdsOfCons(g: Guest, rest: seq<Guest>)
    ensures GuestIds([g] + rest) == (if g.id.Some? then {g.id.value} else {}) + GuestIds(rest)
  {
    var r := [g] + rest;
    forall x | x in GuestIds(r) ensures x in (if g.id.Some? then {g.id.value} else {}) + GuestIds(rest) {
      var i :| 0 <= i < |r| && r[i].id == Some(x);
      if i > 0 {
        assert rest[i - 1] == r[i];
      }
    }
    forall x | x in GuestIds(rest) ensures x in GuestIds(r) {
      var j :| 0 <= j < |rest| && rest[j].id == Some(x);
      assert r[j + 1] == rest[j];
    }
    assert r[0] == g;
  }

  // ---------------------------------------------------------------------------
  // The invariant is kept by every write
  // ---------------------------------------------------------------------------

  lemma {:induction false} InsertKeepsValid(db: Db, property: Uuid, status: Status, beginAt: Date, endAt: Date,
                                            guests: seq<Guest>, freshUuid: Uuid)
    requires ValidDb(db) && FreshUuid(db, freshUuid)
    requires status == BLOCKED ==> guests == []
    ensures ValidDb(db.Insert(property, status, beginAt, endAt, guests, freshUuid).1)
    ensures db.nextId !in db.bookings
  {
    var (row, db') := db.Insert(property, status, beginAt, endAt, guests, freshUuid);
    assert db.nextId !in db.bookings;
    forall k, j | k in db'.bookings && j in db'.bookings && k != j
      ensures db'.bookings[k].uuid != db'.bookings[j].uuid
    {
      if k != db.nextId && j != db.nextId {
        assert db'.bookings[k] == db.bookings[k] && db'.bookings[j] == db.bookings[j];
      }
    }
  }

  /** Overwriting a stored row with an entity loaded from it (same id and uuid) keeps the invariant,
      as long as the entity is not a block with guests. */
  lemma {:induction false} SaveKeepsValid(db: Db, entity: BookingRecord)
    requires ValidDb(db) && entity.id in db.bookings && db.bookings[entity.id].uuid == entity.uuid
    requires entity.status == BLOCKED ==> entity.guests == []
    ensures ValidDb(db.Save(entity).1)
  {
    var db' := db.Save(entity).1;
    forall k, j | k in db'.bookings && j in db'.bookings && k != j
      ensures db'.bookings[k].uuid != db'.bookings[j].uuid
    {
      assert db'.bookings[k].uuid == db.bookings[k].uuid && db'.bookings[j].uuid == db.bookings[j].uuid;
    }
  }

  lemma DeleteKeepsValid(db: Db, entity: BookingRecord)
    requires ValidDb(db)
    ensures ValidDb(db.Delete(entity))
  {
  }

  lemma DeleteGuestsKeepsValid(db: Db, ids: set<nat>)
    requires ValidDb(db)
    ensures ValidDb(db.DeleteGuests(ids))
  {
  }

  /** Saving a row back whose guests are all persisted writes exactly that row and nothing else. */
  lemma {:induction false} SavePersistedRow(db: Db, entity: BookingRecord)
    requires AllPersisted(entity.guests)
    ensures db.Save(entity) == (entity, db.(bookings := db.bookings[entity.id := entity]))
  {
    PersistedGuestsStayPut(entity.guests, db.nextGuestId);
    assert NewGuestCount(entity.guests) == 0;
    assert db.guestIds + IdRange(db.nextGuestId, 0) == db.guestIds;
  }

  /** What an insert writes: the row under the next id with the fresh uuid; its guests keep
      their fields and all carry ids, namely the ones they had plus exactly the ids the guest
      sequence advanced over, which are also the ids added to the guest table. */
  lemma InsertWritesRow(db: Db, property: Uuid, status: Status, beginAt: Date, endAt: Date,
                        guests: seq<Guest>, freshUuid: Uuid)
    ensures var (row, db') := db.Insert(property, status, beginAt, endAt, guests, freshUuid);
            && row == BookingRecord(db.nextId, freshUuid, property, status, beginAt, endAt, row.guests)
            && db'.bookings == db.bookings[db.nextId := row] && db'.nextId == db.nextId + 1
            && AllPersisted(row.guests) && GuestDataOf(row.guests) == GuestDataOf(guests)
            && db'.nextGuestId == db.nextGuestId + NewGuestCount(guests)
            && GuestIds(row.guests) == GuestIds(guests) + IdRange(db.nextGuestId, db'.nextGuestId - db.nextGuestId)
            && db'.guestIds == db.guestIds + IdRange(db.nextGuestId, db'.nextGuestId - db.nextGuestId)
            && db'.properties == db.properties
  {
    var persisted := PersistGuests(guests, db.nextGuestId);
    var n := NewGuestCount(guests);
    assert db.Insert(property, status, beginAt, endAt, guests, freshUuid).0.guests == persisted;
    assert db.Insert(property, status, beginAt, endAt, guests, freshUuid).1.nextGuestId == db.nextGuestId + n;
    PersistedGuestIds(guests, db.nextGuestId);
    PersistedGuestData(guests, db.nextGuestId);
  }

  /** What a save of an entity with an id writes: its row, with the same identity and status;
      the guests keep their fields and ids, and the new ones get exactly the ids the guest
      sequence advanced over, which are also the ids added to the guest table. */
  lemma SaveWritesRow(db: Db, entity: BookingRecord)
    ensures var (row, db') := db.Save(entity);
            && row == entity.(guests := row.guests)
            && db'.bookings == db.bookings[entity.id := row] && db'.nextId == db.nextId
            && AllPersisted(row.guests) && GuestDataOf(row.guests) == GuestDataOf(entity.guests)
            && db'.nextGuestId == db.nextGuestId + NewGuestCount(entity.guests)
            && GuestIds(row.guests) == GuestIds(entity.guests) + IdRange(db.nextGuestId, db'.nextGuestId - db.nextGuestId)
            && db'.guestIds == db.guestIds + IdRange(db.nextGuestId, db'.nextGuestId - db.nextGuestId)
            && db'.properties == db.properties
  {
    var persisted := PersistGuests(entity.guests, db.nextGuestId);
    var n := NewGuestCount(entity.guests);
    assert db.Save(entity).0.guests == persisted;
    assert db.Save(entity).1.nextGuestId == db.nextGuestId + n;
    PersistedGuestIds(entity.guests, db.nextGuestId);
    PersistedGuestData(entity.guests, db.nextGuestId);
  }

  /** The database object: the tables, updated in place by the repository calls. */
  class Database {
    var bookings: Rows
    var nextId: nat
    var guestIds: set<nat>
    var nextGuestId: nat
    var properties: set<Uuid>

    function State(): Db
      reads this
    {
      Db(bookings, nextId, guestIds, nextGuestId, properties)
    }

    ghost predicate Valid()
      reads this
    {
      ValidDb(State())
    }

    /** An empty database holding the given properties; the booking sequence starts at 1. */
    constructor (properties: set<Uuid>)
      ensures Valid()
      ensures State() == Db(map[], 1, {}, 1, properties)
    {
      this.bookings := map[];
      this.nextId := 1;
      this.guestIds := {};
      this.nextGuestId := 1;
      this.properties := properties;
    }

    /** repository.save on a new entity (no id yet). */
    method Insert(property: Uuid, status: Status, beginAt: Date, endAt: Date,
                  guests: seq<Guest>, freshUuid: Uuid) returns (persisted: BookingRecord)
      modifies this
      ensures (persisted, State()) == old(State()).Insert(property, status, beginAt, endAt, guests, freshUuid)
    {
      var n := NewGuestCount(guests);
      persisted := BookingRecord(nextId, freshUuid, property, status, beginAt, endAt,
                                 PersistGuests(guests, nextGuestId));
      bookings := bookings[nextId := persisted];
      nextId := nextId + 1;
      guestIds := guestIds + IdRange(nextGuestId, n);
      nextGuestId := nextGuestId + n;
    }

    /** repository.save on an entity that has an id. The entity itself is left as it was. */
    method Save(entity: Booking) returns (saved: BookingRecord)
      modifies this
      ensures (saved, State()) == old(State()).Save(entity.Snapshot())
    {
      var n := NewGuestCount(entity.guests);
      saved := entity.Snapshot().(guests := PersistGuests(entity.guests, nextGuestId));
      bookings := bookings[entity.id := saved];
      guestIds := guestIds + IdRange(nextGuestId, n);
      nextGuestId := nextGuestId + n;
    }

    /** repository.delete. */
    method Delete(entity: Booking)
      modifies this
      ensures State() == old(State()).Delete(entity.Snapshot())
    {
      bookings := bookings - {entity.id};
      guestIds := guestIds - GuestIds(entity.guests);
    }

    /** guestService.deleteGuestsById. */
    method DeleteGuestsById(ids: set<nat>)
      modifies this
      ensures State() == old(State()).DeleteGuests(ids)
    {
      guestIds := guestIds - ids;
    }
  }
}
