/**
 * The transactions of the dispatch protocol in their shortest form: what each does to the tables of a
 * database that satisfies `Safe`. QueueServices.dfy runs them branch by branch as the program does and is
 * proved to have exactly these effects; here each is shown to keep the invariant.
 *
 * Rows a query leaves to the database (ties in ORDER BY, rows without an order) come in as parameters.
 */
module Dispatch {
  import opened Domain
  import opened QueueRules
  import opened Tables

  // ----- whom a ticket may go to -----

  /** The employee's own country, or else the country of the desk. */
  function WorkCountry(s: State, e: Employee): Option<Country> {
    if e.country.Some? then e.country
    else if e.desk.Some? && e.desk.value in s.place.desks then Some(s.place.desks[e.desk.value].country)
    else None
  }

  /** The rows the query of assignNext may return. */
  predicate Eligible(s: State, e: EmployeeId, t: TicketId) {
    && e in s.employees && t in s.tickets
    && Live(s.tickets[t].status)
    && s.employees[e].site == Some(s.tickets[t].site)
    && s.tickets[t].country.Some? && s.tickets[t].country == WorkCountry(s, s.employees[e])
    && (s.employees[e].services == [] || s.tickets[t].service in s.employees[e].services)
  }

  predicate EligibleOwn(s: State, e: EmployeeId, t: TicketId) {
    Eligible(s, e, t) && s.employees[e].desk.Some? && s.tickets[t].reservedDesk == s.employees[e].desk
  }

  /** The dispatch order: with a slot first, then higher priority, earlier slot, earlier arrival. */
  predicate Before(x: Ticket, y: Ticket) {
    if x.scheduledAt.Some? != y.scheduledAt.Some? then x.scheduledAt.Some?
    else if x.priority != y.priority then x.priority > y.priority
    else if x.scheduledAt.Some? && x.scheduledAt.value != y.scheduledAt.value then
      x.scheduledAt.value < y.scheduledAt.value
    else x.createdAt < y.createdAt
  }

  /** `t` is a first row of the query: its own desk's tickets first, then all. */
  ghost predicate FirstInOrder(s: State, e: EmployeeId, t: TicketId) {
    && Eligible(s, e, t)
    && (if exists u :: EligibleOwn(s, e, u) then
          EligibleOwn(s, e, t) && forall u | EligibleOwn(s, e, u) :: !Before(s.tickets[u], s.tickets[t])
        else forall u | Eligible(s, e, u) :: !Before(s.tickets[u], s.tickets[t]))
  }

  /** The query of assignNext is reached and may take a ticket. */
  ghost predicate Dispatchable(s: State, e: EmployeeId) {
    && e in s.employees && Idle(s, e)
    && WorkCountry(s, s.employees[e]).Some?
    && s.employees[e].desk.Some? && !DeskBusy(s, s.employees[e].desk.value)
  }

  ghost predicate GoodPick(s: State, e: EmployeeId, pick: Option<TicketId>) {
    if Dispatchable(s, e) && (exists t :: Eligible(s, e, t)) then pick.Some? && FirstInOrder(s, e, pick.value)
    else pick == None
  }

  function Open(s: State, t: TicketId, e: EmployeeId, status: TicketStatus, calledAt: Option<Instant>): State
    requires t in s.tickets && e in s.employees
  {
    Move(s, s.nextAssignment, Assignment(t, e, s.employees[e].desk, true, calledAt, None, None),
         s.tickets[t].(status := status), s.employees[e].(status := Reserved))
  }

  function Close(s: State, a: AssignmentId, status: TicketStatus, employee: EmployeeStatus,
                 completedAt: Option<Instant>): State
    requires References(s) && a in s.assignments
  {
    var row := s.assignments[a];
    var ticket := s.tickets[row.ticket];
    Move(s, a, row.(active := false, completedAt := completedAt),
         ticket.(status := status, priority := if status == Requeued then 0 else ticket.priority),
         s.employees[row.employee].(status := employee))
  }

  lemma OpenKeeps(s: State, t: TicketId, e: EmployeeId, status: TicketStatus, calledAt: Option<Instant>)
    requires Safe(s) && t in s.tickets && e in s.employees && Idle(s, e)
    requires !InProgress(s.tickets[t].status) && !Terminal(s.tickets[t].status)
    requires status == Assigned || (status == Called && calledAt.Some?)
    ensures Steps(s, Open(s, t, e, status, calledAt))
    ensures Open(s, t, e, status, calledAt).place == s.place
  {
    forall b | IsActive(s, b) ensures s.assignments[b].ticket != t && s.assignments[b].employee != e {
      assert !ActiveBy(s, b, e);
    }
    MoveKeeps(s, s.nextAssignment, Assignment(t, e, s.employees[e].desk, true, calledAt, None, None),
              s.tickets[t].(status := status), s.employees[e].(status := Reserved));
  }

  lemma CloseKeeps(s: State, a: AssignmentId, status: TicketStatus, employee: EmployeeStatus,
                   completedAt: Option<Instant>)
    requires Safe(s) && IsActive(s, a)
    requires (Terminal(status) || status == Requeued) && !Engaged(employee)
    requires s.tickets[s.assignments[a].ticket].status == InService ==> status == Completed
    requires status == Completed ==> completedAt.Some?
    ensures Steps(s, Close(s, a, status, employee, completedAt))
  {
    var row := s.assignments[a];
    var ticket := s.tickets[row.ticket];
    MoveKeeps(s, a, row.(active := false, completedAt := completedAt),
              ticket.(status := status, priority := if status == Requeued then 0 else ticket.priority),
              s.employees[row.employee].(status := employee));
  }

  lemma CloseFrees(s: State, a: AssignmentId, status: TicketStatus, employee: EmployeeStatus,
                   completedAt: Option<Instant>)
    requires References(s) && Exclusive(s) && IsActive(s, a)
    ensures Idle(Close(s, a, status, employee, completedAt), s.assignments[a].employee)
    ensures Unassigned(Close(s, a, status, employee, completedAt), s.assignments[a].ticket)
  {
    var s' := Close(s, a, status, employee, completedAt);
    assert forall b | IsActive(s', b) :: b != a && IsActive(s, b);
  }

  /** The employee takes the next ticket in line, if it may take one. */
  function AssignNext(s: State, e: EmployeeId, pick: Option<TicketId>): State {
    if pick.Some? && pick.value in s.tickets && e in s.employees then Open(s, pick.value, e, Assigned, None) else s
  }

  lemma AssignNextKeeps(s: State, e: EmployeeId, pick: Option<TicketId>)
    requires Safe(s) && GoodPick(s, e, pick)
    ensures Steps(s, AssignNext(s, e, pick))
  {
    if pick.Some? {
      OpenKeeps(s, pick.value, e, Assigned, None);
    }
  }

  // ----- check-in -----

  /** First the available employee at the ticket's desk, then one of its site, both of its country. */
  predicate AtDeskOf(s: State, t: Ticket, e: EmployeeId) {
    e in s.employees && s.employees[e].desk == t.reservedDesk && WorkCountry(s, s.employees[e]) == t.country
  }

  predicate AtSiteOf(s: State, t: Ticket, e: EmployeeId) {
    && e in s.employees && s.employees[e].site == Some(t.site) && s.employees[e].desk.Some?
    && WorkCountry(s, s.employees[e]) == t.country
  }

  /** The first element of `order` that satisfies `p`. */
  function Find(order: seq<EmployeeId>, p: EmployeeId -> bool): (r: Option<EmployeeId>)
    ensures r.Some? ==> r.value in order && p(r.value)
    ensures r.None? <==> forall e | e in order :: !p(e)
  {
    if order == [] then None else if p(order[0]) then Some(order[0]) else Find(order[1..], p)
  }

  function MatchFor(s: State, t: Ticket, order: seq<EmployeeId>): (r: Option<EmployeeId>)
    ensures r.Some? ==> r.value in order && (AtDeskOf(s, t, r.value) || AtSiteOf(s, t, r.value))
  {
    var atDesk := Find(order, (e: EmployeeId) => AtDeskOf(s, t, e));
    if atDesk.Some? then atDesk else Find(order, (e: EmployeeId) => AtSiteOf(s, t, e))
  }

  /** `order` lists the available employees, longest idle first. */
  ghost predicate AvailableInOrder(s: State, order: seq<EmployeeId>) {
    forall e :: e in order <==> e in s.employees && s.employees[e].status == Available
  }

  ghost function AssignSpecific(s: State, t: TicketId, order: seq<EmployeeId>): State
    requires t in s.tickets
  {
    var found := MatchFor(s, s.tickets[t], order);
    if found.Some? && found.value in s.employees && s.employees[found.value].desk.Some?
       && !DeskBusy(s, s.employees[found.value].desk.value)
    then Open(s, t, found.value, Assigned, None)
    else s
  }

  ghost function CheckIn(s: State, t: TicketId, now: Instant, order: seq<EmployeeId>): Result<State> {
    if t !in s.tickets then Err(NotFound)
    else if !CanCheckIn(s.tickets[t].status, s.tickets[t].scheduledAt, s.tickets[t].duration, now) then Err(BadRequest)
    else
      var row := s.tickets[t].(status := CheckedIn, priority := 1, checkedInAt := Some(now));
      Ok(AssignSpecific(SetTicket(s, t, row), t, order))
  }

  /** An employee whose desk is free of active assignments has none itself. */
  lemma FreeDeskMeansIdle(s: State, e: EmployeeId)
    requires Safe(s) && e in s.employees && s.employees[e].desk.Some? && !DeskBusy(s, s.employees[e].desk.value)
    ensures Idle(s, e)
  {
    forall a | IsActive(s, a) ensures s.assignments[a].employee != e {
      assert s.assignments[a].desk != s.employees[e].desk;
    }
  }

  lemma NotServedUnassigned(s: State, t: TicketId)
    requires References(s) && AssignmentsFit(s) && t in s.tickets && !InProgress(s.tickets[t].status)
    ensures Unassigned(s, t)
  {
    forall a ensures !ActiveFor(s, a, t) {
      if IsActive(s, a) { assert InProgress(s.tickets[s.assignments[a].ticket].status); }
    }
  }

  lemma AssignSpecificKeeps(s: State, t: TicketId, order: seq<EmployeeId>)
    requires Safe(s) && t in s.tickets && Live(s.tickets[t].status)
    ensures Steps(s, AssignSpecific(s, t, order))
  {
    var s' := AssignSpecific(s, t, order);
    if s' != s {
      var found := MatchFor(s, s.tickets[t], order);
      FreeDeskMeansIdle(s, found.value);
      OpenKeeps(s, t, found.value, Assigned, None);
    }
  }

  lemma CheckInKeeps(s: State, t: TicketId, now: Instant, order: seq<EmployeeId>)
    requires Safe(s) && CheckIn(s, t, now, order).Ok?
    ensures Steps(s, CheckIn(s, t, now, order).value)
  {
    var m := SetTicket(s, t, s.tickets[t].(status := CheckedIn, priority := 1, checkedInAt := Some(now)));
    assert Steps(s, m) by {
      NotServedUnassigned(s, t);
      SetTicketKeeps(s, t, m.tickets[t]);
    }
    AssignSpecificKeeps(m, t, order);
    StepsTransitive(s, m, AssignSpecific(m, t, order));
  }

  // ----- leaving the queue -----

  /** Close the ticket's active assignment if it has one, otherwise only change the ticket. */
  ghost function Retire(s: State, t: TicketId, status: TicketStatus, completedAt: Option<Instant>): State
    requires References(s) && t in s.tickets
  {
    match AssignmentFor(s, t)
    case Some(a) => Close(s, a, status, Available, completedAt)
    case None => SetTicket(s, t, s.tickets[t].(status := status))
  }

  lemma RetireKeeps(s: State, t: TicketId, status: TicketStatus, completedAt: Option<Instant>)
    requires Safe(s) && t in s.tickets && !Terminal(s.tickets[t].status) && s.tickets[t].status != InService
    requires status == Cancelled || status == NoShow
    ensures Steps(s, Retire(s, t, status, completedAt))
    ensures Unassigned(Retire(s, t, status, completedAt), t)
  {
    match AssignmentFor(s, t)
    case Some(a) => CloseKeeps(s, a, status, Available, completedAt); CloseFrees(s, a, status, Available, completedAt);
    case None =>
      SetTicketKeeps(s, t, s.tickets[t].(status := status));
      assert forall a :: ActiveFor(s, a, t) == ActiveFor(SetTicket(s, t, s.tickets[t].(status := status)), a, t);
  }

  ghost function MarkNoShow(s: State, t: TicketId, now: Instant): Result<State> {
    if t !in s.tickets then Err(NotFound)
    else if s.tickets[t].status != Booked then Err(Conflict)
    else if !CheckInWindowExpired(s.tickets[t].scheduledAt, s.tickets[t].duration, now) then Err(BadRequest)
    else Ok(SetTicket(s, t, s.tickets[t].(status := NoShow)))
  }

  lemma MarkNoShowKeeps(s: State, t: TicketId, now: Instant)
    requires Safe(s) && MarkNoShow(s, t, now).Ok?
    ensures Steps(s, MarkNoShow(s, t, now).value)
  {
    NotServedUnassigned(s, t);
    SetTicketKeeps(s, t, s.tickets[t].(status := NoShow));
  }

  ghost function Cancel(s: State, t: TicketId): Result<State>
    requires References(s)
  {
    if t !in s.tickets then Err(NotFound)
    else if !CanCancel(s.tickets[t].status) then Err(Conflict)
    else Ok(Retire(s, t, Cancelled, None))
  }

  lemma CancelKeeps(s: State, t: TicketId)
    requires Safe(s) && Cancel(s, t).Ok?
    ensures Steps(s, Cancel(s, t).value)
  {
    RetireKeeps(s, t, Cancelled, None);
  }

  // ----- the manager's status change -----

  /** A transaction that may end by dispatching: the tables before, and the employee the dispatch is for. */
  datatype Progress = Progress(tables: State, dispatch: Option<EmployeeId>)

  ghost predicate GoodTail(p: Progress, pick: Option<TicketId>) {
    match p.dispatch
    case Some(e) => GoodPick(p.tables, e, pick)
    case None => pick == None
  }

  function Tail(p: Progress, pick: Option<TicketId>): State {
    match p.dispatch
    case Some(e) => AssignNext(p.tables, e, pick)
    case None => p.tables
  }

  lemma TailKeeps(s: State, p: Progress, pick: Option<TicketId>)
    requires Safe(s) && Steps(s, p.tables) && GoodTail(p, pick)
    ensures Steps(s, Tail(p, pick))
  {
    if p.dispatch.Some? {
      AssignNextKeeps(p.tables, p.dispatch.value, pick);
      StepsTransitive(s, p.tables, Tail(p, pick));
    }
  }

  ghost function ManagerRefusal(s: State, user: EmployeeId, t: TicketId, status: TicketStatus): Option<Error> {
    if t !in s.tickets || user !in s.employees then Some(NotFound)
    else if s.employees[user].site.Some? && s.employees[user].site.value != s.tickets[t].site then Some(Forbidden)
    else if !ManagerMayChange(s.tickets[t].status, status) then Some(BadRequest)
    else if AssignmentFor(s, t).Some? && !ActiveBy(s, AssignmentFor(s, t).value, user) then Some(Forbidden)
    else if s.tickets[t].status == status then None
    else if status == Called then (if Idle(s, user) then None else Some(BadRequest))
    else if AssignmentFor(s, t).None? then Some(NotFound)
    else None
  }

  /**
   * Only two changes exist: an idle manager calls a waiting ticket, and the manager who serves a ticket
   * completes it and takes the next one.
   */
  ghost function ManagerChange(s: State, user: EmployeeId, t: TicketId, status: TicketStatus,
                               now: Instant): Result<Progress>
    requires References(s)
  {
    match ManagerRefusal(s, user, t, status)
    case Some(error) => Err(error)
    case None => Ok(
      if s.tickets[t].status == status then Progress(s, None)
      else if status == Called then Progress(Open(s, t, user, Called, Some(now)), None)
      else Progress(Close(s, AssignmentFor(s, t).value, Completed, Available, Some(now)),
                    if s.employees[user].desk.Some? then Some(user) else None))
  }

  lemma ManagerChangeTables(s: State, user: EmployeeId, t: TicketId, status: TicketStatus, now: Instant)
    requires Safe(s) && ManagerChange(s, user, t, status, now).Ok?
    ensures Steps(s, ManagerChange(s, user, t, status, now).value.tables)
  {
    if s.tickets[t].status != status {
      if status == Called {
        OpenKeeps(s, t, user, Called, Some(now));
      } else {
        CloseKeeps(s, AssignmentFor(s, t).value, Completed, Available, Some(now));
      }
    }
  }

  lemma ManagerChangeKeeps(s: State, user: EmployeeId, t: TicketId, status: TicketStatus, now: Instant,
                           pick: Option<TicketId>)
    requires Safe(s) && ManagerChange(s, user, t, status, now).Ok?
    requires GoodTail(ManagerChange(s, user, t, status, now).value, pick)
    ensures Steps(s, Tail(ManagerChange(s, user, t, status, now).value, pick))
  {
    ManagerChangeTables(s, user, t, status, now);
    TailKeeps(s, ManagerChange(s, user, t, status, now).value, pick);
  }

  // ----- what an employee does with its assignment -----

  function CallUp(s: State, a: AssignmentId, now: Instant): State
    requires References(s) && a in s.assignments
  {
    var row := s.assignments[a];
    var ticket := s.tickets[row.ticket];
    Move(s, a, row.(calledAt := Some(now)), ticket.(status := Called, callAttempts := ticket.callAttempts + 1),
         s.employees[row.employee])
  }

  function Serve(s: State, a: AssignmentId, now: Instant): State
    requires References(s) && a in s.assignments
  {
    var row := s.assignments[a];
    Move(s, a, row.(startedAt := Some(now)), s.tickets[row.ticket].(status := InService),
         s.employees[row.employee].(status := Busy))
  }

  /** CALL, START, COMPLETE, REQUEUE and NO_SHOW on the caller's own active assignment. None of them dispatches. */
  function Act(s: State, user: EmployeeId, a: AssignmentId, action: Action, now: Instant): Result<State>
    requires References(s)
  {
    if !ActiveBy(s, a, user) then Err(NotFound)
    else
      var ticket := s.tickets[s.assignments[a].ticket];
      match NextTicketStatus(ticket.status, action, ticket.scheduledAt.Some?)
      case None => Err(BadRequest)
      case Some(next) => Ok(
        if next == Called then CallUp(s, a, now)
        else if next == InService then Serve(s, a, now)
        else Close(s, a, next, Available, Some(now)))
  }

  lemma CallUpKeeps(s: State, a: AssignmentId, now: Instant)
    requires Safe(s) && IsActive(s, a) && s.tickets[s.assignments[a].ticket].status == Assigned
    ensures Steps(s, CallUp(s, a, now))
  {
    var row := s.assignments[a];
    var ticket := s.tickets[row.ticket];
    var employee := s.employees[row.employee];
    assert Fits(row, ticket, employee);
    var row' := row.(calledAt := Some(now));
    var ticket' := ticket.(status := Called, callAttempts := ticket.callAttempts + 1);
    assert Fits(row', ticket', employee);
    assert CallUp(s, a, now) == Move(s, a, row', ticket', employee);
    MoveKeeps(s, a, row', ticket', employee);
  }

  lemma ServeKeeps(s: State, a: AssignmentId, now: Instant)
    requires Safe(s) && IsActive(s, a) && s.tickets[s.assignments[a].ticket].status != InService
    ensures Steps(s, Serve(s, a, now))
  {
    var row := s.assignments[a];
    assert Fits(row, s.tickets[row.ticket], s.employees[row.employee]);
    MoveKeeps(s, a, row.(startedAt := Some(now)), s.tickets[row.ticket].(status := InService),
              s.employees[row.employee].(status := Busy));
  }

  lemma ActKeeps(s: State, user: EmployeeId, a: AssignmentId, action: Action, now: Instant)
    requires Safe(s) && Act(s, user, a, action, now).Ok?
    ensures Steps(s, Act(s, user, a, action, now).value)
  {
    var ticket := s.tickets[s.assignments[a].ticket];
    var next := NextTicketStatus(ticket.status, action, ticket.scheduledAt.Some?).value;
    if next == Called {
      CallUpKeeps(s, a, now);
    } else if next == InService {
      ServeKeeps(s, a, now);
    } else {
      CloseKeeps(s, a, next, Available, Some(now));
    }
  }

  /** Every action that succeeds brings its assignment to a later stage. */
  lemma ActAdvances(s: State, user: EmployeeId, a: AssignmentId, action: Action, now: Instant)
    requires Safe(s) && Act(s, user, a, action, now).Ok?
    ensures Stage(s, a) < Stage(Act(s, user, a, action, now).value, a)
  {
    assert Fits(s.assignments[a], s.tickets[s.assignments[a].ticket], s.employees[user]);
  }

  // ----- breaks, seats and directions -----

  /** Take the employee's ticket back into the queue, unless it is being served. */
  ghost function Release(s: State, e: EmployeeId, status: EmployeeStatus, now: Instant): Result<State>
    requires References(s)
  {
    match AssignmentOf(s, e)
    case None => Ok(s)
    case Some(a) =>
      if s.tickets[s.assignments[a].ticket].status == InService then Err(Conflict)
      else Ok(Close(s, a, Requeued, status, Some(now)))
  }

  lemma ReleaseKeeps(s: State, e: EmployeeId, status: EmployeeStatus, now: Instant)
    requires Safe(s) && !Engaged(status) && Release(s, e, status, now).Ok?
    ensures var m := Release(s, e, status, now).value; Steps(s, m) && Idle(m, e)
  {
    match AssignmentOf(s, e)
    case None =>
    case Some(a) =>
      assert Release(s, e, status, now).value == Close(s, a, Requeued, status, Some(now));
      CloseKeeps(s, a, Requeued, status, Some(now));
      CloseFrees(s, a, Requeued, status, Some(now));
  }

  lemma ReleaseTouches(s: State, e: EmployeeId, status: EmployeeStatus, now: Instant)
    requires References(s) && Release(s, e, status, now).Ok?
    ensures var m := Release(s, e, status, now).value;
            && m.employees.Keys == s.employees.Keys
            && (forall f | f in s.employees ::
                  m.employees[f].desk == s.employees[f].desk && (f != e ==> m.employees[f] == s.employees[f]))
  {
  }

  ghost function ChangeEmployeeStatus(s: State, user: EmployeeId, status: EmployeeStatus,
                                      now: Instant): Result<Progress>
    requires References(s)
  {
    if user !in s.employees then Err(NotFound)
    else if status == Available && s.employees[user].desk.None? then Err(BadRequest)
    else if status == Available then
      Ok(Progress(SetEmployee(s, user, s.employees[user].(status := Available)), Some(user)))
    else if status == Paused || status == Offline then
      match Release(s, user, status, now)
      case Err(error) => Err(error)
      case Ok(m) =>
        if user !in m.employees then Ok(Progress(m, None))
        else Ok(Progress(SetEmployee(m, user, m.employees[user].(status := status)), None))
    else if !Idle(s, user) then Err(Conflict)
    else Ok(Progress(SetEmployee(s, user, s.employees[user].(status := status)), None))
  }

  lemma ChangeEmployeeStatusTables(s: State, user: EmployeeId, status: EmployeeStatus, now: Instant)
    requires Safe(s) && !Engaged(status) && ChangeEmployeeStatus(s, user, status, now).Ok?
    ensures Steps(s, ChangeEmployeeStatus(s, user, status, now).value.tables)
  {
    var p := ChangeEmployeeStatus(s, user, status, now).value;
    if status == Available {
      SetEmployeeKeeps(s, user, s.employees[user].(status := Available));
    } else {
      ReleaseKeeps(s, user, status, now);
      ReleaseTouches(s, user, status, now);
      var m := Release(s, user, status, now).value;
      SetEmployeeKeeps(m, user, m.employees[user].(status := status));
      StepsTransitive(s, m, p.tables);
    }
  }

  lemma ChangeEmployeeStatusKeeps(s: State, user: EmployeeId, status: EmployeeStatus, now: Instant,
                                  pick: Option<TicketId>)
    requires Safe(s) && !Engaged(status) && ChangeEmployeeStatus(s, user, status, now).Ok?
    requires GoodTail(ChangeEmployeeStatus(s, user, status, now).value, pick)
    ensures Steps(s, Tail(ChangeEmployeeStatus(s, user, status, now).value, pick))
  {
    ChangeEmployeeStatusTables(s, user, status, now);
    TailKeeps(s, ChangeEmployeeStatus(s, user, status, now).value, pick);
  }

  /** Let the employee's ticket go back and take the employee off its desk. */
  ghost function Unseat(s: State, e: EmployeeId, now: Instant): Result<State>
    requires References(s) && e in s.employees
  {
    match Release(s, e, Paused, now)
    case Err(error) => Err(error)
    case Ok(m) => Ok(if e in m.employees then SetEmployee(m, e, m.employees[e].(desk := None)) else m)
  }

  lemma UnseatTouches(s: State, e: EmployeeId, now: Instant)
    requires References(s) && e in s.employees && Unseat(s, e, now).Ok?
    ensures Unseat(s, e, now).value.employees.Keys == s.employees.Keys
    ensures Unseat(s, e, now).value.employees[e].desk.None?
    ensures forall f | f in s.employees && f != e :: Unseat(s, e, now).value.employees[f] == s.employees[f]
  {
    ReleaseTouches(s, e, Paused, now);
  }

  lemma UnseatKeeps(s: State, e: EmployeeId, now: Instant)
    requires Safe(s) && e in s.employees && Unseat(s, e, now).Ok?
    ensures Steps(s, Unseat(s, e, now).value)
  {
    ReleaseKeeps(s, e, Paused, now);
    var m := Release(s, e, Paused, now).value;
    assert e in m.employees by { ReleaseTouches(s, e, Paused, now); }
    SetEmployeeKeeps(m, e, m.employees[e].(desk := None));
    StepsTransitive(s, m, Unseat(s, e, now).value);
  }

  ghost predicate SeatedAt(s: State, f: EmployeeId, d: DeskId) {
    f in s.employees && s.employees[f].desk == Some(d)
  }

  /** Whoever else sits at the desk leaves it. */
  ghost function Vacate(s: State, d: DeskId, e: EmployeeId, now: Instant): Result<State>
    requires References(s)
  {
    if exists f :: SeatedAt(s, f, d) && f != e then
      var f :| SeatedAt(s, f, d) && f != e;
      Unseat(s, f, now)
    else Ok(s)
  }

  lemma VacateTouches(s: State, d: DeskId, e: EmployeeId, now: Instant)
    requires References(s) && Seated(s) && e in s.employees && Vacate(s, d, e, now).Ok?
    ensures var m := Vacate(s, d, e, now).value;
            && e in m.employees && m.employees[e] == s.employees[e]
            && (forall f :: SeatedAt(m, f, d) ==> f == e)
  {
    if exists f :: SeatedAt(s, f, d) && f != e {
      var f :| SeatedAt(s, f, d) && f != e && Vacate(s, d, e, now) == Unseat(s, f, now);
      UnseatTouches(s, f, now);
      var m := Unseat(s, f, now).value;
      assert forall g | SeatedAt(m, g, d) :: g == e || SeatedAt(s, g, d);
    }
  }

  lemma VacateKeeps(s: State, d: DeskId, e: EmployeeId, now: Instant)
    requires Safe(s) && Vacate(s, d, e, now).Ok?
    ensures Steps(s, Vacate(s, d, e, now).value)
  {
    if exists f :: SeatedAt(s, f, d) && f != e {
      var f :| SeatedAt(s, f, d) && f != e && Vacate(s, d, e, now) == Unseat(s, f, now);
      UnseatKeeps(s, f, now);
    }
  }

  ghost function SetDesk(s: State, e: EmployeeId, desk: Option<DeskId>, now: Instant): Result<State>
    requires References(s)
  {
    if e !in s.employees then Err(NotFound)
    else match desk
      case None => Unseat(s, e, now)
      case Some(d) =>
        if d !in s.place.desks || !s.place.desks[d].active then Err(NotFound)
        else if s.employees[e].country.Some? && s.employees[e].country.value != s.place.desks[d].country then
          Err(BadRequest)
        else match Vacate(s, d, e, now)
          case Err(error) => Err(error)
          case Ok(m) => Sit(m, e, d, s.place.desks[d], now)
  }

  ghost function Sit(m: State, e: EmployeeId, d: DeskId, desk: Desk, now: Instant): Result<State> {
    if !References(m) then Err(Conflict)
    else match Release(m, e, Paused, now)
      case Err(error) => Err(error)
      case Ok(n) =>
        if e !in n.employees then Err(NotFound)
        else
          var row := n.employees[e];
          Ok(SetEmployee(n, e, row.(desk := Some(d), country := Some(desk.country),
                                    site := if row.site.Some? then row.site else Some(desk.site))))
  }

  lemma SetDeskKeeps(s: State, e: EmployeeId, desk: Option<DeskId>, now: Instant)
    requires Safe(s) && SetDesk(s, e, desk, now).Ok?
    ensures Steps(s, SetDesk(s, e, desk, now).value)
  {
    match desk
    case None => UnseatKeeps(s, e, now);
    case Some(d) =>
      VacateKeeps(s, d, e, now);
      VacateTouches(s, d, e, now);
      var m := Vacate(s, d, e, now).value;
      SitKeeps(m, e, d, s.place.desks[d], now);
      StepsTransitive(s, m, SetDesk(s, e, desk, now).value);
  }

  lemma SitKeeps(m: State, e: EmployeeId, d: DeskId, desk: Desk, now: Instant)
    requires Safe(m) && e in m.employees && Sit(m, e, d, desk, now).Ok?
    requires forall f :: SeatedAt(m, f, d) ==> f == e
    ensures Steps(m, Sit(m, e, d, desk, now).value)
  {
    ReleaseKeeps(m, e, Paused, now);
    ReleaseTouches(m, e, Paused, now);
    var n := Release(m, e, Paused, now).value;
    var s' := Sit(m, e, d, desk, now).value;
    assert forall f | f in n.employees && f != e :: !SeatedAt(m, f, d);
    SetEmployeeKeeps(n, e, s'.employees[e]);
    StepsTransitive(m, n, s');
  }

  /** A new direction; a desk of the old one is given up. */
  ghost function SetCountry(s: State, e: EmployeeId, country: Country, now: Instant): Result<State>
    requires References(s)
  {
    if e !in s.employees then Err(NotFound)
    else if s.employees[e].role == Admin then Err(BadRequest)
    else if s.employees[e].country == Some(country) then Ok(s)
    else
      var desk := s.employees[e].desk;
      if desk.Some? && desk.value in s.place.desks && s.place.desks[desk.value].country != country then
        match Release(s, e, Offline, now)
        case Err(error) => Err(error)
        case Ok(m) =>
          if e !in m.employees then Ok(m)
          else Ok(SetEmployee(m, e, m.employees[e].(desk := None, country := Some(country))))
      else Ok(SetEmployee(s, e, s.employees[e].(country := Some(country))))
  }

  lemma SetCountryKeeps(s: State, e: EmployeeId, country: Country, now: Instant)
    requires Safe(s) && SetCountry(s, e, country, now).Ok?
    ensures Steps(s, SetCountry(s, e, country, now).value)
  {
    var desk := s.employees[e].desk;
    if s.employees[e].country != Some(country) {
      if desk.Some? && desk.value in s.place.desks && s.place.desks[desk.value].country != country {
        ReleaseKeeps(s, e, Offline, now);
        ReleaseTouches(s, e, Offline, now);
        var m := Release(s, e, Offline, now).value;
        SetEmployeeKeeps(m, e, m.employees[e].(desk := None, country := Some(country)));
        StepsTransitive(s, m, SetCountry(s, e, country, now).value);
      } else {
        SetEmployeeKeeps(s, e, s.employees[e].(country := Some(country)));
      }
    }
  }

  // ----- the timers -----

  /** One round of the dispatch sweep: an employee that is available takes the next ticket. */
  ghost predicate GoodDispatch(s: State, e: EmployeeId, pick: Option<TicketId>) {
    if e in s.employees && s.employees[e].status == Available then GoodPick(s, e, pick) else pick == None
  }

  lemma DispatchKeeps(s: State, e: EmployeeId, pick: Option<TicketId>)
    requires Safe(s) && GoodDispatch(s, e, pick)
    ensures Steps(s, AssignNext(s, e, pick))
  {
    if pick.Some? { AssignNextKeeps(s, e, pick); }
  }

  const CALL_TIMEOUT := 90_000

  predicate CallExpired(s: State, a: AssignmentId, now: Instant) {
    && IsActive(s, a) && s.assignments[a].calledAt.Some? && s.assignments[a].calledAt.value < now - CALL_TIMEOUT
    && s.assignments[a].ticket in s.tickets && s.tickets[s.assignments[a].ticket].status == Called
  }

  /** An unanswered call: back into the queue after the first, a no-show after the second. */
  function ExpireCall(s: State, a: AssignmentId): State
    requires References(s)
  {
    if IsActive(s, a) && s.tickets[s.assignments[a].ticket].status == Called then
      var status := if s.tickets[s.assignments[a].ticket].callAttempts >= 2 then NoShow else Requeued;
      Close(s, a, status, Available, s.assignments[a].completedAt)
    else s
  }

  lemma ExpireCallKeeps(s: State, a: AssignmentId)
    requires Safe(s)
    ensures Steps(s, ExpireCall(s, a))
  {
    if IsActive(s, a) && s.tickets[s.assignments[a].ticket].status == Called {
      var status := if s.tickets[s.assignments[a].ticket].callAttempts >= 2 then NoShow else Requeued;
      CloseKeeps(s, a, status, Available, s.assignments[a].completedAt);
    }
  }
}
