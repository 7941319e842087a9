/**
 * The invariant that links tickets, employees and assignments, what no step may undo, and the elementary
 * changes every transaction is made of. Each change is shown once to keep the invariant (`Safe`), to move
 * every ticket and assignment only forwards (`Evolves`) and to leave bookings alone (`SameSlots`);
 * transactions inherit all three by composition.
 */
module Tables {
  import opened Domain

  predicate IsActive(s: State, a: AssignmentId) {
    a in s.assignments && s.assignments[a].active
  }

  predicate ActiveFor(s: State, a: AssignmentId, t: TicketId) {
    IsActive(s, a) && s.assignments[a].ticket == t
  }

  predicate ActiveBy(s: State, a: AssignmentId, e: EmployeeId) {
    IsActive(s, a) && s.assignments[a].employee == e
  }

  predicate ServedBy(s: State, a: AssignmentId, t: TicketId) {
    a in s.assignments && !s.assignments[a].active && s.assignments[a].ticket == t && s.assignments[a].completedAt.Some?
  }

  ghost predicate Idle(s: State, e: EmployeeId) {
    forall a :: !ActiveBy(s, a, e)
  }

  ghost predicate Unassigned(s: State, t: TicketId) {
    forall a :: !ActiveFor(s, a, t)
  }

  ghost predicate Served(s: State, t: TicketId) {
    exists a :: ServedBy(s, a, t)
  }

  ghost predicate DeskBusy(s: State, d: DeskId) {
    exists a :: IsActive(s, a) && s.assignments[a].desk == Some(d)
  }

  /** The employee's active assignment, if any. */
  ghost function AssignmentOf(s: State, e: EmployeeId): (r: Option<AssignmentId>)
    ensures r.Some? ==> ActiveBy(s, r.value, e)
    ensures r.None? <==> Idle(s, e)
  {
    if exists a :: ActiveBy(s, a, e) then
      var a :| ActiveBy(s, a, e);
      Some(a)
    else None
  }

  /** The ticket's active assignment, if any. */
  ghost function AssignmentFor(s: State, t: TicketId): (r: Option<AssignmentId>)
    ensures r.Some? ==> ActiveFor(s, r.value, t)
    ensures r.None? <==> Unassigned(s, t)
  {
    if exists a :: ActiveFor(s, a, t) then
      var a :| ActiveFor(s, a, t);
      Some(a)
    else None
  }

  // ----- the invariant -----

  ghost predicate References(s: State) {
    && (forall a | a in s.assignments ::
          a < s.nextAssignment && s.assignments[a].ticket in s.tickets && s.assignments[a].employee in s.employees)
    && (forall t | t in s.tickets :: t < s.nextTicket)
  }

  predicate Agree(employee: EmployeeStatus, ticket: TicketStatus) {
    match employee
    case Reserved => ticket == Assigned || ticket == Called
    case Busy => ticket == InService
    case Available => true
    case _ => false
  }

  /** What an active assignment says about its ticket and its employee. */
  predicate Fits(row: Assignment, ticket: Ticket, employee: Employee) {
    && InProgress(ticket.status)
    && Agree(employee.status, ticket.status)
    && (employee.desk.None? || employee.desk == row.desk)
    && row.completedAt.None?
    && (ticket.status == Called ==> row.calledAt.Some?)
    && (ticket.status == InService ==> row.startedAt.Some?)
  }

  ghost predicate AssignmentsFit(s: State)
    requires References(s)
  {
    forall a | IsActive(s, a) ::
        Fits(s.assignments[a], s.tickets[s.assignments[a].ticket], s.employees[s.assignments[a].employee])
  }

  predicate PriorityFits(ticket: Ticket) {
    (ticket.status == CheckedIn ==> ticket.priority == 1) && (ticket.status == Requeued ==> ticket.priority == 0)
  }

  ghost predicate TicketsFit(s: State) {
    forall t | t in s.tickets ::
      && PriorityFits(s.tickets[t])
      && (InProgress(s.tickets[t].status) ==> !Unassigned(s, t))
      && (s.tickets[t].status == Completed ==> Served(s, t))
  }

  predicate Engaged(status: EmployeeStatus) {
    status == Reserved || status == Busy
  }

  ghost predicate EmployeesFit(s: State) {
    forall e | e in s.employees && Engaged(s.employees[e].status) :: !Idle(s, e)
  }

  // No ticket and no employee has two active assignments.
  ghost predicate Exclusive(s: State) {
    forall a, b | IsActive(s, a) && IsActive(s, b) && a != b ::
      s.assignments[a].ticket != s.assignments[b].ticket && s.assignments[a].employee != s.assignments[b].employee
  }

  // No desk seats two employees.
  ghost predicate Seated(s: State) {
    forall e, f | e in s.employees && f in s.employees && e != f && s.employees[e].desk.Some? ::
      s.employees[e].desk != s.employees[f].desk
  }

  ghost predicate Safe(s: State) {
    References(s) && AssignmentsFit(s) && TicketsFit(s) && EmployeesFit(s) && Exclusive(s) && Seated(s)
  }

  // ----- what no step undoes -----

  /** How far an assignment has come; identifiers not issued yet rank below all, purged rows stay closed. */
  function Stage(s: State, a: AssignmentId): int {
    if a >= s.nextAssignment then -1
    else if a !in s.assignments || !s.assignments[a].active || s.assignments[a].ticket !in s.tickets then 3
    else StageOf(s.tickets[s.assignments[a].ticket].status)
  }

  function StageOf(status: TicketStatus): int {
    match status
    case Assigned => 0
    case Called => 1
    case InService => 2
    case _ => 3
  }

  predicate MayBecome(x: TicketStatus, y: TicketStatus) {
    && (y == Booked || y == Waiting ==> x == y)
    && (x == InService ==> y == InService || y == Completed)
    && (Terminal(x) ==> x == y)
  }

  predicate SameSlot(x: Ticket, y: Ticket) {
    && x.site == y.site && x.service == y.service && x.country == y.country && x.scheduledAt == y.scheduledAt
    && x.duration == y.duration && x.reservedDesk == y.reservedDesk && x.createdAt == y.createdAt && x.phone == y.phone
  }

  ghost predicate TicketsEvolve(s: State, s': State) {
    && s.nextTicket <= s'.nextTicket
    && (forall t | t in s'.tickets && t !in s.tickets :: s.nextTicket <= t)
    && (forall t | t in s.tickets && t in s'.tickets ::
          && MayBecome(s.tickets[t].status, s'.tickets[t].status)
          && s.tickets[t].callAttempts <= s'.tickets[t].callAttempts)
  }

  ghost predicate AssignmentsEvolve(s: State, s': State) {
    && s.nextAssignment <= s'.nextAssignment
    && (forall a: nat :: Stage(s, a) <= Stage(s', a))
    && (forall a | a in s'.assignments && a !in s.assignments :: s.nextAssignment <= a)
    && (forall a | a in s.assignments && a in s'.assignments ::
          && s.assignments[a].ticket == s'.assignments[a].ticket
          && s.assignments[a].employee == s'.assignments[a].employee
          && s.assignments[a].desk == s'.assignments[a].desk)
  }

  ghost predicate Evolves(s: State, s': State) {
    s.employees.Keys <= s'.employees.Keys && TicketsEvolve(s, s') && AssignmentsEvolve(s, s')
  }

  lemma TicketsEvolveTransitive(s: State, m: State, s': State)
    requires References(s) && References(m) && TicketsEvolve(s, m) && TicketsEvolve(m, s')
    ensures TicketsEvolve(s, s')
  {
  }

  lemma EvolvesTransitive(s: State, m: State, s': State)
    requires References(s) && References(m) && Evolves(s, m) && Evolves(m, s')
    ensures Evolves(s, s')
  {
    TicketsEvolveTransitive(s, m, s');
  }

  /** Bookings are untouched: no ticket appears and none changes its slot. */
  ghost predicate SameSlots(s: State, s': State) {
    && s'.place == s.place && s'.nextTicket == s.nextTicket
    && s'.tickets.Keys <= s.tickets.Keys
    && (forall t | t in s'.tickets :: SameSlot(s.tickets[t], s'.tickets[t]))
  }

  /** The desk an active assignment is worked at is its employee's desk. */
  ghost predicate DesksAgree(s: State) {
    forall a | IsActive(s, a) && s.assignments[a].employee in s.employees ::
      s.assignments[a].desk == s.employees[s.assignments[a].employee].desk
  }

  /** A step of the dispatch protocol. */
  ghost predicate Advances(s: State, s': State) {
    Safe(s') && Evolves(s, s') && SameSlots(s, s') && (DesksAgree(s) ==> DesksAgree(s'))
  }

  /** Every step but the purge also keeps every ticket. */
  ghost predicate Steps(s: State, s': State) {
    Advances(s, s') && s'.tickets.Keys == s.tickets.Keys
  }

  lemma StepsTransitive(s: State, m: State, s': State)
    requires Safe(s) && Steps(s, m) && Steps(m, s')
    ensures Steps(s, s')
  {
    EvolvesTransitive(s, m, s');
  }

  // ----- the elementary changes -----

  /** A ticket's row changes. */
  function SetTicket(s: State, t: TicketId, row: Ticket): State {
    s.(tickets := s.tickets[t := row])
  }

  /** An employee's row changes. */
  function SetEmployee(s: State, e: EmployeeId, row: Employee): State {
    s.(employees := s.employees[e := row])
  }

  /** An assignment is written together with its ticket and its employee. */
  function Move(s: State, a: AssignmentId, row: Assignment, ticket: Ticket, employee: Employee): State {
    s.(tickets := s.tickets[row.ticket := ticket],
       employees := s.employees[row.employee := employee],
       assignments := s.assignments[a := row],
       nextAssignment := if a == s.nextAssignment then a + 1 else s.nextAssignment)
  }

  /** Closed tickets go, and their assignments with them. */
  function Purge(s: State, ids: set<TicketId>): State {
    s.(tickets := s.tickets - ids,
       assignments := map a | a in s.assignments && s.assignments[a].ticket !in ids :: s.assignments[a])
  }

  // ----- SetTicket keeps everything when the ticket is not being served -----

  predicate MayRestatus(x: Ticket, y: Ticket) {
    && SameSlot(x, y) && x.callAttempts == y.callAttempts && MayBecome(x.status, y.status)
    && !InProgress(y.status) && (y.status == Completed ==> x.status == Completed) && PriorityFits(y)
  }

  lemma SetTicketSafe(s: State, t: TicketId, row: Ticket)
    requires Safe(s) && t in s.tickets && Unassigned(s, t)
    requires !InProgress(row.status) && (row.status == Completed ==> s.tickets[t].status == Completed)
    requires PriorityFits(row)
    ensures Safe(SetTicket(s, t, row))
    ensures DesksAgree(s) ==> DesksAgree(SetTicket(s, t, row))
  {
    var s' := SetTicket(s, t, row);
    assert forall a :: IsActive(s', a) == IsActive(s, a);
    assert AssignmentsFit(s') by {
      forall a | IsActive(s', a) ensures s'.tickets[s'.assignments[a].ticket] == s.tickets[s.assignments[a].ticket] {
        assert !ActiveFor(s, a, t);
      }
    }
    assert TicketsFit(s') by { SetTicketTickets(s, t, row); }
    assert EmployeesFit(s') by {
      assert forall a, e :: ActiveBy(s', a, e) == ActiveBy(s, a, e);
    }
  }

  lemma SetTicketTickets(s: State, t: TicketId, row: Ticket)
    requires TicketsFit(s) && t in s.tickets
    requires !InProgress(row.status) && (row.status == Completed ==> s.tickets[t].status == Completed)
    requires PriorityFits(row)
    ensures TicketsFit(SetTicket(s, t, row))
  {
    var s' := SetTicket(s, t, row);
    assert forall a, u :: ActiveFor(s', a, u) == ActiveFor(s, a, u);
    assert forall a, u :: ServedBy(s', a, u) == ServedBy(s, a, u);
  }

  lemma SetTicketEvolves(s: State, t: TicketId, row: Ticket)
    requires References(s) && t in s.tickets && Unassigned(s, t) && MayRestatus(s.tickets[t], row)
    ensures Evolves(s, SetTicket(s, t, row)) && SameSlots(s, SetTicket(s, t, row))
  {
    var s' := SetTicket(s, t, row);
    assert TicketsEvolve(s, s') && SameSlots(s, s');
    forall a: nat ensures Stage(s, a) == Stage(s', a) { assert !ActiveFor(s, a, t); }
  }

  lemma SetTicketKeeps(s: State, t: TicketId, row: Ticket)
    requires Safe(s) && t in s.tickets && Unassigned(s, t) && MayRestatus(s.tickets[t], row)
    ensures Steps(s, SetTicket(s, t, row))
  {
    SetTicketSafe(s, t, row);
    SetTicketEvolves(s, t, row);
  }

  // ----- SetEmployee keeps everything when an employee at work keeps its desk and is not sent away -----

  ghost predicate MayRewrite(s: State, e: EmployeeId, row: Employee) {
    && (Engaged(row.status) ==> e in s.employees && row.status == s.employees[e].status)
    && (!Idle(s, e) ==>
          && e in s.employees && row.desk == s.employees[e].desk
          && (row.status == Available || row.status == s.employees[e].status))
    && (row.desk.Some? ==> forall f | f in s.employees && f != e :: s.employees[f].desk != row.desk)
  }

  lemma SetEmployeeAssignments(s: State, e: EmployeeId, row: Employee)
    requires References(s) && AssignmentsFit(s) && MayRewrite(s, e, row)
    ensures References(SetEmployee(s, e, row)) && AssignmentsFit(SetEmployee(s, e, row))
    ensures DesksAgree(s) ==> DesksAgree(SetEmployee(s, e, row))
  {
    var s' := SetEmployee(s, e, row);
    forall a | IsActive(s', a)
      ensures Fits(s'.assignments[a], s'.tickets[s'.assignments[a].ticket], s'.employees[s'.assignments[a].employee])
    {
      assert IsActive(s, a);
      if s.assignments[a].employee == e { assert ActiveBy(s, a, e); }
    }
    assert forall a | IsActive(s', a) && s.assignments[a].employee == e :: ActiveBy(s, a, e);
  }

  lemma SetEmployeeKeeps(s: State, e: EmployeeId, row: Employee)
    requires Safe(s) && MayRewrite(s, e, row)
    ensures Steps(s, SetEmployee(s, e, row))
  {
    var s' := SetEmployee(s, e, row);
    SetEmployeeAssignments(s, e, row);
    SetEmployeeRest(s, e, row);
  }

  lemma SetEmployeeRest(s: State, e: EmployeeId, row: Employee)
    requires TicketsFit(s) && EmployeesFit(s) && Exclusive(s) && Seated(s) && MayRewrite(s, e, row)
    ensures var s' := SetEmployee(s, e, row);
            && TicketsFit(s') && EmployeesFit(s') && Exclusive(s') && Seated(s')
            && Evolves(s, s') && SameSlots(s, s')
  {
    var s' := SetEmployee(s, e, row);
    assert forall a :: IsActive(s', a) == IsActive(s, a);
    assert forall a, u :: ActiveFor(s', a, u) == ActiveFor(s, a, u);
    assert forall a, u :: ServedBy(s', a, u) == ServedBy(s, a, u);
    assert forall a, f :: ActiveBy(s', a, f) == ActiveBy(s, a, f);
    assert forall a: nat :: Stage(s, a) == Stage(s', a);
  }

  // ----- Move keeps everything when it opens a new assignment or works on an active one -----

  /** Nobody else works on the ticket or for the employee. */
  ghost predicate Alone(s: State, a: AssignmentId, row: Assignment) {
    forall b | IsActive(s, b) && b != a ::
        s.assignments[b].ticket != row.ticket && s.assignments[b].employee != row.employee
  }

  predicate SameWork(x: Assignment, y: Assignment) {
    x.ticket == y.ticket && x.employee == y.employee && x.desk == y.desk
  }

  ghost predicate MayMove(s: State, a: AssignmentId, row: Assignment, ticket: Ticket, employee: Employee) {
    && row.ticket in s.tickets && row.employee in s.employees
    && (if IsActive(s, a) then SameWork(s.assignments[a], row)
        else a == s.nextAssignment && row.active && row.desk == s.employees[row.employee].desk)
    && Alone(s, a, row)
    && employee.desk == s.employees[row.employee].desk
    && (if row.active then Fits(row, ticket, employee)
        else !InProgress(ticket.status) && !Engaged(employee.status) && PriorityFits(ticket)
             && (ticket.status == Completed ==> row.completedAt.Some?))
  }

  predicate MoveForward(s: State, a: AssignmentId, row: Assignment, ticket: Ticket)
    requires row.ticket in s.tickets
  {
    var was := s.tickets[row.ticket];
    && SameSlot(was, ticket) && was.callAttempts <= ticket.callAttempts && MayBecome(was.status, ticket.status)
    && (IsActive(s, a) && row.active ==> StageOf(was.status) <= StageOf(ticket.status))
  }

  lemma MoveAssignments(s: State, a: AssignmentId, row: Assignment, ticket: Ticket, employee: Employee)
    requires References(s) && AssignmentsFit(s) && MayMove(s, a, row, ticket, employee)
    ensures References(Move(s, a, row, ticket, employee)) && AssignmentsFit(Move(s, a, row, ticket, employee))
  {
    var s' := Move(s, a, row, ticket, employee);
    forall b | IsActive(s', b)
      ensures Fits(s'.assignments[b], s'.tickets[s'.assignments[b].ticket], s'.employees[s'.assignments[b].employee])
    {
      if b != a { assert IsActive(s, b); }
    }
  }

  lemma MoveDesks(s: State, a: AssignmentId, row: Assignment, ticket: Ticket, employee: Employee)
    requires References(s) && MayMove(s, a, row, ticket, employee) && DesksAgree(s)
    ensures DesksAgree(Move(s, a, row, ticket, employee))
  {
    var s' := Move(s, a, row, ticket, employee);
    forall b | IsActive(s', b) ensures s'.assignments[b].desk == s'.employees[s'.assignments[b].employee].desk {
      if b != a { assert IsActive(s, b); }
    }
  }

  lemma MoveTickets(s: State, a: AssignmentId, row: Assignment, ticket: Ticket, employee: Employee)
    requires References(s) && TicketsFit(s) && MayMove(s, a, row, ticket, employee)
    ensures TicketsFit(Move(s, a, row, ticket, employee))
  {
    var s' := Move(s, a, row, ticket, employee);
    assert row.active ==> ActiveFor(s', a, row.ticket);
    assert !row.active ==> row.completedAt.Some? ==> ServedBy(s', a, row.ticket);
    forall b, u | ActiveFor(s, b, u) && u != row.ticket ensures ActiveFor(s', b, u) { assert b != a; }
    forall b, u | ServedBy(s, b, u) ensures ServedBy(s', b, u) { assert b != a; }
  }

  lemma MoveEmployees(s: State, a: AssignmentId, row: Assignment, ticket: Ticket, employee: Employee)
    requires References(s) && EmployeesFit(s) && MayMove(s, a, row, ticket, employee)
    ensures EmployeesFit(Move(s, a, row, ticket, employee))
  {
    var s' := Move(s, a, row, ticket, employee);
    assert row.active ==> ActiveBy(s', a, row.employee);
    assert forall b, f | ActiveBy(s, b, f) && f != row.employee :: b != a && ActiveBy(s', b, f);
  }

  lemma MoveExclusive(s: State, a: AssignmentId, row: Assignment, ticket: Ticket, employee: Employee)
    requires Exclusive(s) && Seated(s) && MayMove(s, a, row, ticket, employee)
    ensures Exclusive(Move(s, a, row, ticket, employee)) && Seated(Move(s, a, row, ticket, employee))
  {
    var s' := Move(s, a, row, ticket, employee);
    assert forall b | b != a :: IsActive(s', b) == IsActive(s, b);
  }

  lemma MoveStages(s: State, a: AssignmentId, row: Assignment, ticket: Ticket, employee: Employee)
    requires References(s) && MayMove(s, a, row, ticket, employee) && MoveForward(s, a, row, ticket)
    ensures forall b: nat :: Stage(s, b) <= Stage(Move(s, a, row, ticket, employee), b)
  {
    var s' := Move(s, a, row, ticket, employee);
    forall b: nat ensures Stage(s, b) <= Stage(s', b) {
      if b != a && IsActive(s, b) { assert s.assignments[b].ticket != row.ticket; }
    }
  }

  lemma MoveEvolves(s: State, a: AssignmentId, row: Assignment, ticket: Ticket, employee: Employee)
    requires References(s) && MayMove(s, a, row, ticket, employee) && MoveForward(s, a, row, ticket)
    ensures Evolves(s, Move(s, a, row, ticket, employee)) && SameSlots(s, Move(s, a, row, ticket, employee))
  {
    var s' := Move(s, a, row, ticket, employee);
    assert TicketsEvolve(s, s') && SameSlots(s, s');
    MoveStages(s, a, row, ticket, employee);
  }

  lemma MoveKeeps(s: State, a: AssignmentId, row: Assignment, ticket: Ticket, employee: Employee)
    requires Safe(s) && MayMove(s, a, row, ticket, employee) && MoveForward(s, a, row, ticket)
    ensures Steps(s, Move(s, a, row, ticket, employee))
  {
    MoveAssignments(s, a, row, ticket, employee);
    MoveTickets(s, a, row, ticket, employee);
    MoveEmployees(s, a, row, ticket, employee);
    MoveExclusive(s, a, row, ticket, employee);
    MoveEvolves(s, a, row, ticket, employee);
    if DesksAgree(s) { MoveDesks(s, a, row, ticket, employee); }
  }

  // ----- Purge keeps everything when the tickets are closed -----

  // No active assignment goes with a closed ticket.
  lemma PurgeSpares(s: State, ids: set<TicketId>)
    requires References(s) && AssignmentsFit(s)
    requires forall t | t in ids :: t in s.tickets && Terminal(s.tickets[t].status)
    ensures forall a :: IsActive(Purge(s, ids), a) <==> IsActive(s, a)
    ensures References(Purge(s, ids)) && AssignmentsFit(Purge(s, ids))
  {
    forall b ensures IsActive(Purge(s, ids), b) <==> IsActive(s, b) {
      if IsActive(s, b) { assert InProgress(s.tickets[s.assignments[b].ticket].status); }
    }
  }

  lemma PurgeTickets(s: State, ids: set<TicketId>)
    requires TicketsFit(s) && (forall a :: IsActive(Purge(s, ids), a) <==> IsActive(s, a))
    ensures TicketsFit(Purge(s, ids))
  {
    var s' := Purge(s, ids);
    assert forall b, u :: ActiveFor(s', b, u) <==> ActiveFor(s, b, u);
    assert forall b, u :: u !in ids && ServedBy(s, b, u) ==> ServedBy(s', b, u);
  }

  lemma PurgeEvolves(s: State, ids: set<TicketId>)
    requires References(s) && (forall a :: IsActive(Purge(s, ids), a) <==> IsActive(s, a))
    ensures Evolves(s, Purge(s, ids)) && SameSlots(s, Purge(s, ids)) && (DesksAgree(s) ==> DesksAgree(Purge(s, ids)))
  {
    forall a: nat ensures Stage(s, a) <= Stage(Purge(s, ids), a) {
      assert IsActive(Purge(s, ids), a) <==> IsActive(s, a);
    }
  }

  lemma PurgeSafe(s: State, ids: set<TicketId>)
    requires Safe(s)
    requires forall t | t in ids :: t in s.tickets && Terminal(s.tickets[t].status)
    ensures forall a :: IsActive(Purge(s, ids), a) <==> IsActive(s, a)
    ensures Safe(Purge(s, ids))
  {
    var s' := Purge(s, ids);
    PurgeSpares(s, ids);
    PurgeTickets(s, ids);
    assert EmployeesFit(s') by { assert forall b, f :: ActiveBy(s', b, f) <==> ActiveBy(s, b, f); }
  }

  lemma PurgeKeeps(s: State, ids: set<TicketId>)
    requires Safe(s)
    requires forall t | t in ids :: t in s.tickets && Terminal(s.tickets[t].status)
    ensures Advances(s, Purge(s, ids))
  {
    PurgeSafe(s, ids);
    PurgeEvolves(s, ids);
  }
}
