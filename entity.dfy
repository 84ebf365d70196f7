/** The persisted shapes of the reservation core: the status enum, the
    identifiers, guests, the stored booking row, the mutable `Booking` entity
    and the request payload. Dates are epoch days. */
module Entity {
  import opened Exceptions

  /** BookingStatus. BOOKED and CANCELED mark the booking role, BLOCKED the block role. */
  datatype Status = BOOKED | BLOCKED | CANCELED

  /** A calendar day, counted in days from an epoch. */
  type Date = int

  predicate IsHexDigit(c: char)
  {
    ('0' <= c <= '9') || ('a' <= c <= 'f') || ('A' <= c <= 'F')
  }

  predicate IsDashPosition(i: int)
  {
    i == 8 || i == 13 || i == 18 || i == 23
  }

  /** The canonical 8-4-4-4-12 textual form of a UUID, which is what UUID.fromString
      accepts in this model. */
  predicate WellFormedUuid(s: string)
  {
    && |s| == 36
    && (forall i :: 0 <= i < |s| && IsDashPosition(i) ==> s[i] == '-')
    && (forall i :: 0 <= i < |s| && !IsDashPosition(i) ==> IsHexDigit(s[i]))
  }

  /** A UUID, kept as its canonical text. */
  type Uuid = s: string | WellFormedUuid(s)
    witness "00000000-0000-0000-0000-000000000000"

  /** The message of the IllegalArgumentException UUID.fromString throws. */
  function InvalidUuidMessage(s: string): string
  {
    "Invalid UUID string: " + s
  }

  /** UUID.fromString: the parsed identifier, or None where the JDK throws. */
  function ParseUuid(s: string): (r: Option<Uuid>)
    ensures r.Some? <==> WellFormedUuid(s)
    ensures r.Some? ==> r.value == s
  {
    if WellFormedUuid(s) then Some(s) else None
  }

  /** The fields of a guest that a request carries (GuestResource). */
  datatype GuestData = GuestData(
    name: string,
    age: int,
    email: Option<string>,
    documentType: Option<string>,
    documentNumber: Option<string>)

  /** A Guest entity: its identity is assigned by the guest sequence when it is first persisted. */
  datatype Guest = Guest(id: Option<nat>, data: GuestData)

  /** The guest fields of a guest list, in order. */
  function GuestDataOf(guests: seq<Guest>): (r: seq<GuestData>)
    ensures |r| == |guests|
    ensures forall i :: 0 <= i < |r| ==> r[i] == guests[i].data
  {
    seq(|guests|, i requires 0 <= i < |guests| => guests[i].data)
  }

  /** One stored row of the BOOKING table; `property` is the property's uuid. */
  datatype BookingRecord = BookingRecord(
    id: nat,
    uuid: Uuid,
    property: Uuid,
    status: Status,
    beginAt: Date,
    endAt: Date,
    guests: seq<Guest>)

  /** BookingRequestResource. Field-level validation (non-null, sizes, not in the past)
      happens before the core is reached. */
  datatype BookingRequest = BookingRequest(
    propertyId: string,
    beginAt: Date,
    endAt: Date,
    guests: seq<GuestData>)

  /** The mutable Booking entity the services load, change in place and save. */
  class Booking {
    var id: nat
    var uuid: Uuid
    var property: Uuid
    var status: Status
    var beginAt: Date
    var endAt: Date
    var guests: seq<Guest>

    /** The row this entity would be written as. */
    function Snapshot(): BookingRecord
      reads this
    {
      BookingRecord(id, uuid, property, status, beginAt, endAt, guests)
    }

    /** Materialises a stored row as an entity object. */
    constructor Load(row: BookingRecord)
      ensures Snapshot() == row
    {
      id := row.id;
      uuid := row.uuid;
      property := row.property;
      status := row.status;
      beginAt := row.beginAt;
      endAt := row.endAt;
      guests := row.guests;
    }
  }
}
