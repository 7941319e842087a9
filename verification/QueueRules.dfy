/**
 * The transition table and the time windows of queue.rules.ts, and the manager's status guard of
 * ticket-presentation.ts.
 */
module QueueRules {
  import opened Domain

  datatype Action = Call | Start | Complete | Requeue | MissedCall

  function NextTicketStatus(current: TicketStatus, action: Action, hasScheduledSlot: bool): Option<TicketStatus> {
    if action == Start && current == Assigned && hasScheduledSlot then Some(InService)
    else match action
      case Call => if current == Assigned then Some(Called) else None
      case Start => if current == Called then Some(InService) else None
      case Complete => if current == InService then Some(Completed) else None
      case Requeue => if current in {Assigned, Called} then Some(Requeued) else None
      case MissedCall => if current in {Called, Booked} then Some(NoShow) else None
  }

  predicate CanCancel(status: TicketStatus) {
    status in {Booked, Waiting, CheckedIn, Assigned, Called, Requeued}
  }

  predicate CanReleaseOnBreak(status: TicketStatus) {
    status in {Assigned, Called}
  }

  predicate BlocksBreak(status: TicketStatus) {
    status == InService
  }

  predicate CanCheckIn(status: TicketStatus, scheduledAt: Option<Instant>, duration: nat, now: Instant) {
    && status == Booked
    && scheduledAt.Some?
    && scheduledAt.value - 15 * MINUTE <= now <= scheduledAt.value + duration * MINUTE
  }

  predicate CheckInWindowExpired(scheduledAt: Option<Instant>, duration: nat, now: Instant) {
    scheduledAt.Some? && now > scheduledAt.value + duration * MINUTE
  }

  const NO_SHOW_GRACE := 60 * MINUTE

  predicate AutoNoShow(status: TicketStatus) {
    status in {Booked, Waiting, CheckedIn, Requeued, Assigned}
  }

  predicate AppointmentMissed(scheduledAt: Option<Instant>, now: Instant) {
    scheduledAt.Some? && now >= scheduledAt.value + NO_SHOW_GRACE
  }

  function ManagerNextStatuses(from: TicketStatus): seq<TicketStatus> {
    if Terminal(from) then []
    else if InProgress(from) then [Completed]
    else [Called]
  }

  predicate ManagerMayChange(from: TicketStatus, to: TicketStatus) {
    from == to || (!Terminal(from) && to in ManagerNextStatuses(from))
  }
}
