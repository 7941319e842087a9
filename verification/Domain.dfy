/** The rows of the queue database and the vocabulary every other module shares. */
module Domain {

  datatype Option<+T> = None | Some(value: T)

  /** The exceptions the services throw. */
  datatype Error = NotFound | BadRequest | Conflict | Forbidden | TooManyRequests | DatabaseError

  datatype Result<+T> = Ok(value: T) | Err(error: Error)

  // Identifiers are generated by the database and never repeat.
  type TicketId = nat
  type EmployeeId = nat
  type AssignmentId = nat
  type DeskId = nat
  type SiteId = nat
  type ServiceId = nat
  type BlockId = nat

  // Instants are milliseconds.
  type Instant = int

  const MINUTE := 60_000

  datatype Country = RF | CN

  datatype TicketStatus =
    | Booked | Waiting | CheckedIn | Assigned | Called
    | InService | Completed | Requeued | NoShow | Cancelled

  datatype EmployeeStatus = Offline | Available | Reserved | Busy | Paused

  datatype Role = Staff | Admin | Auditor

  datatype Ticket = Ticket(
    status: TicketStatus,
    callAttempts: nat,
    priority: int,
    site: SiteId,
    service: ServiceId,
    country: Option<Country>,
    phone: string,
    scheduledAt: Option<Instant>,
    checkedInAt: Option<Instant>,
    duration: nat,
    reservedDesk: Option<DeskId>,
    createdAt: Instant)

  datatype Employee = Employee(
    role: Role,
    status: EmployeeStatus,
    site: Option<SiteId>,
    desk: Option<DeskId>,
    country: Option<Country>,
    services: seq<ServiceId>)

  datatype Assignment = Assignment(
    ticket: TicketId,
    employee: EmployeeId,
    desk: Option<DeskId>,
    active: bool,
    calledAt: Option<Instant>,
    startedAt: Option<Instant>,
    completedAt: Option<Instant>)

  // `rank` stands for the label's place in the database's collation order.
  datatype Desk = Desk(rank: nat, country: Country, active: bool, site: SiteId)

  // `day` counts Moscow calendar days, `from` and `until` are minutes of that day.
  datatype BlockedSlot = BlockedSlot(site: SiteId, employee: EmployeeId, day: int, from: int, until: int)

  /** What the administrators set up: desks, blocked time, sites and the services they offer. */
  datatype Premises = Premises(
    desks: map<DeskId, Desk>,
    blocks: map<BlockId, BlockedSlot>,
    sites: set<SiteId>,
    services: map<ServiceId, SiteId>,
    nextDesk: nat,
    nextBlock: nat)

  /** The database: one map a table, and the identifiers still to be issued. */
  datatype State = State(
    tickets: map<TicketId, Ticket>,
    employees: map<EmployeeId, Employee>,
    assignments: map<AssignmentId, Assignment>,
    place: Premises,
    nextTicket: nat,
    nextAssignment: nat)

  predicate SlotHolding(status: TicketStatus) {
    !Terminal(status)
  }

  predicate Live(status: TicketStatus) {
    status == CheckedIn || status == Requeued
  }

  predicate InProgress(status: TicketStatus) {
    status == Assigned || status == Called || status == InService
  }

  predicate Terminal(status: TicketStatus) {
    status == Completed || status == Cancelled || status == NoShow
  }

  /** A finite non-empty set has an element nothing comes before: ORDER BY ... LIMIT 1 has an answer. */
  lemma Minimal(ids: set<nat>, before: (nat, nat) -> bool) returns (m: nat)
    requires ids != {}
    requires forall x :: !before(x, x)
    requires forall x, y, z :: before(x, y) && before(y, z) ==> before(x, z)
    ensures m in ids && forall u | u in ids :: !before(u, m)
    decreases |ids|
  {
    var x :| x in ids;
    var rest := ids - {x};
    m := x;
    if rest != {} {
      var best := Minimal(rest, before);
      if !before(x, best) { m := best; }
      assert forall u | u in ids :: u == x || u in rest;
    }
  }
}
