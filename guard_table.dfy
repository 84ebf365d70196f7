/** The status guards of the six guarded service operations as one explicit table keyed
    by operation and current status, next to the table the guard messages and the
    service tests describe. */
module GuardTable {
  import opened Entity

  datatype Operation =
    | UpdateBookingOp
    | CancelBookingOp
    | RebookBookingOp
    | DeleteBookingOp
    | UpdateBlockOp
    | DeleteBlockOp

  /** The statuses each guard rejects, as the services' conditions evaluate. */
  function RejectedByCode(op: Operation, status: Status): bool
  {
    match op
    case UpdateBookingOp => status == CANCELED
    case CancelBookingOp => status == CANCELED
    case RebookBookingOp => status == BOOKED
    case DeleteBookingOp => status == BOOKED || status == CANCELED
    case UpdateBlockOp => status == BLOCKED
    case DeleteBlockOp => status == BLOCKED
  }

  /** The statuses each guard is meant to reject according to its message ("only with X
      status") and, for update, cancel, rebook and update-block, the service tests; no test
      calls deleteBooking or deleteBlock, so those two rows follow the messages alone. */
  function RejectedByTests(op: Operation, status: Status): bool
  {
    match op
    case UpdateBookingOp => status != BOOKED
    case CancelBookingOp => status != BOOKED
    case RebookBookingOp => status != CANCELED
    case DeleteBookingOp => status == BLOCKED
    case UpdateBlockOp => status != BLOCKED
    case DeleteBlockOp => status != BLOCKED
  }

  predicate IsBookingPathOp(op: Operation)
  {
    op == UpdateBookingOp || op == CancelBookingOp || op == RebookBookingOp
  }

  /** Where the two tables part: the booking-path update, cancel and rebook let a BLOCKED
      row through where the tests expect a rejection; delete-booking, update-block and
      delete-block reject exactly the statuses their messages allow. */
  lemma CodeAndTestsDisagree(op: Operation, status: Status)
    ensures IsBookingPathOp(op) ==> (RejectedByCode(op, status) != RejectedByTests(op, status) <==> status == BLOCKED)
    ensures !IsBookingPathOp(op) ==> RejectedByCode(op, status) == !RejectedByTests(op, status)
  {
  }
}
