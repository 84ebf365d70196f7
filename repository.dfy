/** BookingRepository: the JPQL overlap query and the lookup by uuid, over the
    stored rows keyed by their id (the table's primary key). */
module Repository {
  import opened Exceptions
  import opened Entity

  /** The rows of the BOOKING table, keyed by id. */
  type Rows = map<nat, BookingRecord>

  /** The table's unique constraint on UUID_BOOKING. */
  ghost predicate UniqueUuids(rows: Rows)
  {
    forall k, j :: k in rows && j in rows && k != j ==> rows[k].uuid != rows[j].uuid
  }

  /** Every row sits under its own id, and ids are issued from 1. */
  ghost predicate KeyedById(rows: Rows)
  {
    forall k :: k in rows ==> rows[k].id == k && k >= 1
  }

  /** The three-clause interval test of the query, with [beginDate, endDate] the
      requested range and b the stored row. */
  predicate DatesOverlap(beginDate: Date, endDate: Date, b: BookingRecord)
  {
    || (beginDate <= b.beginAt && endDate >= b.beginAt)
    || (endDate >= b.endAt && beginDate <= b.endAt)
    || (beginDate >= b.beginAt && endDate <= b.endAt)
  }

  /** The WHERE clause of the query for one row. */
  predicate Matches(b: BookingRecord, bookingId: int, propertyUuid: Uuid, statuses: seq<Status>,
                    beginDate: Date, endDate: Date)
  {
    && bookingId != b.id
    && b.property == propertyUuid
    && b.status in statuses
    && DatesOverlap(beginDate, endDate, b)
  }

  /** hasOverlappingDates: COUNT(b) > 0 over the rows that match. */
  predicate HasOverlappingDates(rows: Rows, bookingId: int, propertyUuid: Uuid, statuses: seq<Status>,
                                beginDate: Date, endDate: Date)
  {
    exists k :: k in rows && Matches(rows[k], bookingId, propertyUuid, statuses, beginDate, endDate)
  }

  /** findByUuid: the stored row carrying that uuid, or absent. */
  function FindByUuid(rows: Rows, uuid: Uuid): (r: Option<BookingRecord>)
    requires UniqueUuids(rows)
    ensures r.Some? <==> exists k :: k in rows && rows[k].uuid == uuid
    ensures r.Some? ==> r.value in rows.Values && r.value.uuid == uuid
  {
    if exists k :: k in rows && rows[k].uuid == uuid then
      var k :| k in rows && rows[k].uuid == uuid;
      Some(rows[k])
    else
      None
  }

  /** The usual closed-interval test: the two ranges share at least one day. */
  predicate SharesDay(a1: Date, a2: Date, b1: Date, b2: Date)
  {
    a1 <= b2 && a2 >= b1
  }

  // ---------------------------------------------------------------------------
  // Properties of the interval test
  // ---------------------------------------------------------------------------

  /** With both ranges well-formed the three clauses say exactly that the ranges share a day. */
  lemma ThreeClausesAreClosedIntervalOverlap(beginDate: Date, endDate: Date, b: BookingRecord)
    requires beginDate <= endDate && b.beginAt <= b.endAt
    ensures DatesOverlap(beginDate, endDate, b) <==> SharesDay(beginDate, endDate, b.beginAt, b.endAt)
  {
  }

  /** Hence, for well-formed ranges, the test is symmetric in the two ranges. */
  lemma OverlapIsSymmetric(a: BookingRecord, b: BookingRecord)
    requires a.beginAt <= a.endAt && b.beginAt <= b.endAt
    ensures DatesOverlap(a.beginAt, a.endAt, b) <==> DatesOverlap(b.beginAt, b.endAt, a)
  {
    ThreeClausesAreClosedIntervalOverlap(a.beginAt, a.endAt, b);
    ThreeClausesAreClosedIntervalOverlap(b.beginAt, b.endAt, a);
  }

  /** For an inverted requested range the three clauses and the closed-interval test part ways:
      [5, 1] against a stored single day 3 passes clause 3 but shares no day. */
  lemma InvertedRangeBreaksEquivalence(b: BookingRecord)
    requires b.beginAt == 3 && b.endAt == 3
    ensures DatesOverlap(5, 1, b) && !SharesDay(5, 1, b.beginAt, b.endAt)
  {
  }

  /** Boundaries are inclusive: touching on the first or last day is a conflict,
      and so is a single day anywhere inside the stored range. */
  lemma BoundariesAreInclusive(b: BookingRecord, d: Date, beginDate: Date, endDate: Date)
    requires b.beginAt <= b.endAt
    ensures beginDate <= b.beginAt ==> DatesOverlap(beginDate, b.beginAt, b)
    ensures b.endAt <= endDate ==> DatesOverlap(b.endAt, endDate, b)
    ensures b.beginAt <= d <= b.endAt ==> DatesOverlap(d, d, b)
  {
  }

  /** A range inside a stored range conflicts (clause 3), and so does one that contains it (clause 1). */
  lemma ContainmentConflicts(b: BookingRecord, beginDate: Date, endDate: Date)
    requires b.beginAt <= b.endAt && beginDate <= endDate
    ensures b.beginAt <= beginDate && endDate <= b.endAt ==> DatesOverlap(beginDate, endDate, b)
    ensures beginDate <= b.beginAt && b.endAt <= endDate ==> DatesOverlap(beginDate, endDate, b)
  {
  }

  /** Well-formed ranges that end before, or start after, the stored range do not conflict. */
  lemma DisjointRangesDoNotConflict(b: BookingRecord, beginDate: Date, endDate: Date)
    requires b.beginAt <= b.endAt && beginDate <= endDate
    requires endDate < b.beginAt || b.endAt < beginDate
    ensures !DatesOverlap(beginDate, endDate, b)
  {
  }

  // ---------------------------------------------------------------------------
  // Properties of the existence query
  // ---------------------------------------------------------------------------

  /** The query answers true iff some row other than `bookingId`, on the property, with a listed
      status, overlaps the range; removing every row that fails one of those tests changes nothing. */
  lemma {:induction false} OnlyMatchingRowsCount(rows: Rows, keep: set<nat>, bookingId: int, propertyUuid: Uuid,
                                                 statuses: seq<Status>, beginDate: Date, endDate: Date)
    requires forall k :: k in rows && k !in keep ==> !Matches(rows[k], bookingId, propertyUuid, statuses, beginDate, endDate)
    ensures HasOverlappingDates(rows, bookingId, propertyUuid, statuses, beginDate, endDate)
        <==> HasOverlappingDates(map k | k in rows && k in keep :: rows[k], bookingId, propertyUuid, statuses, beginDate, endDate)
  {
    var kept := map k | k in rows && k in keep :: rows[k];
    if HasOverlappingDates(rows, bookingId, propertyUuid, statuses, beginDate, endDate) {
      var k :| k in rows && Matches(rows[k], bookingId, propertyUuid, statuses, beginDate, endDate);
      assert k in kept && kept[k] == rows[k];
    }
    if HasOverlappingDates(kept, bookingId, propertyUuid, statuses, beginDate, endDate) {
      var k :| k in kept && Matches(kept[k], bookingId, propertyUuid, statuses, beginDate, endDate);
      assert k in rows && rows[k] == kept[k];
    }
  }

  /** Excluding a stored row's own id is the same as asking the question of the table without
      that row (and no exclusion at all, since no id is 0). */
  lemma {:induction false} ExcludingOwnIdDropsOwnRow(rows: Rows, own: nat, propertyUuid: Uuid,
                                                     statuses: seq<Status>, beginDate: Date, endDate: Date)
    requires KeyedById(rows) && own in rows
    ensures HasOverlappingDates(rows, own, propertyUuid, statuses, beginDate, endDate)
        <==> HasOverlappingDates(rows - {own}, 0, propertyUuid, statuses, beginDate, endDate)
  {
    var rest := rows - {own};
    if HasOverlappingDates(rows, own, propertyUuid, statuses, beginDate, endDate) {
      var k :| k in rows && Matches(rows[k], own, propertyUuid, statuses, beginDate, endDate);
      assert k != own;
      assert k in rest && Matches(rest[k], 0, propertyUuid, statuses, beginDate, endDate);
    }
    if HasOverlappingDates(rest, 0, propertyUuid, statuses, beginDate, endDate) {
      var k :| k in rest && Matches(rest[k], 0, propertyUuid, statuses, beginDate, endDate);
      assert rows[k].id == k && k != own;
      assert Matches(rows[k], own, propertyUuid, statuses, beginDate, endDate);
    }
  }

  /** The create-time sentinel 0 excludes no stored row. */
  lemma {:induction false} SentinelExcludesNothing(rows: Rows, propertyUuid: Uuid, statuses: seq<Status>,
                                                   beginDate: Date, endDate: Date)
    requires KeyedById(rows)
    ensures HasOverlappingDates(rows, 0, propertyUuid, statuses, beginDate, endDate)
        <==> exists k :: k in rows && rows[k].property == propertyUuid && rows[k].status in statuses
                                   && DatesOverlap(beginDate, endDate, rows[k])
  {
    if exists k :: k in rows && rows[k].property == propertyUuid && rows[k].status in statuses
                               && DatesOverlap(beginDate, endDate, rows[k]) {
      var k :| k in rows && rows[k].property == propertyUuid && rows[k].status in statuses
                         && DatesOverlap(beginDate, endDate, rows[k]);
      assert rows[k].id == k && k >= 1;
      assert Matches(rows[k], 0, propertyUuid, statuses, beginDate, endDate);
    }
  }
}
