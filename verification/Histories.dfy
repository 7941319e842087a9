/** What holds along whole runs of the system. */
module Histories {
  import opened Domain
  import opened QueueRules
  import opened Holds
  import opened Tables
  import opened Dispatch
  import opened Sweeps
  import opened DispatchLaws
  import opened SeatLaws
  import opened Appointments
  import opened Runs

  // ----- the tables -----

  /** The employee is reserved for a ticket that is assigned or called, busy with one being served, or available. */
  predicate AsTheySay(employee: Employee, ticket: Ticket) {
    || (employee.status == Reserved && ticket.status in {Assigned, Called})
    || (employee.status == Busy && ticket.status == InService)
    || (employee.status == Available && ticket.status in {Assigned, Called, InService})
  }

  lemma ProgressIsWork(s: State)
    requires Safe(s)
    ensures forall t | t in s.tickets :: InProgress(s.tickets[t].status) <==> exists a :: ActiveFor(s, a, t)
  {
    forall t | t in s.tickets ensures InProgress(s.tickets[t].status) <==> exists a :: ActiveFor(s, a, t) {
      if InProgress(s.tickets[t].status) { assert !Unassigned(s, t); } else { NotServedUnassigned(s, t); }
    }
  }

  lemma WorkSays(s: State, a: AssignmentId)
    requires Safe(s) && IsActive(s, a)
    ensures s.assignments[a].ticket in s.tickets && s.assignments[a].employee in s.employees
    ensures AsTheySay(s.employees[s.assignments[a].employee], s.tickets[s.assignments[a].ticket])
  {
    assert Fits(s.assignments[a], s.tickets[s.assignments[a].ticket], s.employees[s.assignments[a].employee]);
  }

  /**
   * In every reachable state: one active assignment for each ticket in progress and none for others, at most one for an
   * employee, each as its employee's status says.
   */
  lemma ReachableTables(y: System, run: seq<Occurrence>)
    requires Good(y) && LegalRun(y, run)
    ensures var s := Run(y, run).db;
            && (forall t | t in s.tickets :: InProgress(s.tickets[t].status) <==> exists a :: ActiveFor(s, a, t))
            && (forall a, b, t | ActiveFor(s, a, t) && ActiveFor(s, b, t) :: a == b)
            && (forall a, b, e | ActiveBy(s, a, e) && ActiveBy(s, b, e) :: a == b)
            && (forall a | IsActive(s, a) ::
                s.assignments[a].ticket in s.tickets && s.assignments[a].employee in s.employees
                  && AsTheySay(s.employees[s.assignments[a].employee], s.tickets[s.assignments[a].ticket]))
            && (forall e | e in s.employees && Engaged(s.employees[e].status) :: exists a :: ActiveBy(s, a, e))
            && (forall t | t in s.tickets && s.tickets[t].status == Completed :: exists a :: ServedBy(s, a, t))
  {
    RunSafe(y, run);
    var s := Run(y, run).db;
    ProgressIsWork(s);
    forall a | IsActive(s, a)
      ensures s.assignments[a].ticket in s.tickets && s.assignments[a].employee in s.employees
      ensures AsTheySay(s.employees[s.assignments[a].employee], s.tickets[s.assignments[a].ticket])
    {
      WorkSays(s, a);
    }
    assert forall e | e in s.employees && Engaged(s.employees[e].status) :: !Idle(s, e);
    assert forall t | t in s.tickets && s.tickets[t].status == Completed :: Served(s, t);
  }

  lemma QueueTickets(y: System, o: Occurrence)
    requires Good(y) && Legal(y, o) && o.event.OnQueue?
    ensures var s' := Next(y, o).db; s'.tickets.Keys <= y.db.tickets.Keys && Evolves(y.db, s')
    ensures !o.event.q.Purges? ==> Next(y, o).db.tickets.Keys == y.db.tickets.Keys
  {
    if Queue(y.db, o.event.q, o.now).Ok? { QueueKeeps(y.db, o.event.q, o.now); } else { StepsReflexive(y.db); }
  }

  lemma AdministerTickets(s: State, o: OfficeStep)
    requires Administer(s, o).Ok?
    ensures Administer(s, o).value.tickets == s.tickets
  {
  }

  lemma OfficeTickets(y: System, o: Occurrence)
    requires Safe(y.db) && (o.event.InOffice? || o.event.OnHolds?)
    ensures Next(y, o).db.tickets == y.db.tickets
  {
    if o.event.InOffice? && Administer(y.db, o.event.o).Ok? { AdministerTickets(y.db, o.event.o); }
  }

  /** Tickets keep their status and their calls; a new one is booked. */
  ghost predicate OnlyBooks(s: State, s': State) {
    && s.tickets.Keys <= s'.tickets.Keys
    && (forall t | t in s.tickets ::
        s'.tickets[t].status == s.tickets[t].status && s'.tickets[t].callAttempts == s.tickets[t].callAttempts)
    && (forall t | t in s'.tickets && t !in s.tickets ::
        s'.tickets[t].status == Booked && s'.tickets[t].callAttempts == 0)
  }

  lemma BookOnlyBooks(s: State, listed: set<Key>, f: Form, phone: string, now: Instant, d: DeskId, duplicate: Error)
    requires References(s) && Book(s, listed, f, phone, now, d, duplicate).Ok?
    ensures OnlyBooks(s, Book(s, listed, f, phone, now, d, duplicate).value)
  {
  }

  lemma DeskTickets(y: System, o: Occurrence)
    requires Safe(y.db) && o.event.AtDesk?
    ensures OnlyBooks(y.db, Next(y, o).db)
  {
    var outcome := Arrange(y.db, y.redis, o.event.b, o.now).1;
    match o.event.b
    case Creates(f, session, id, d) =>
      if outcome.Ok? {
        var held := AfterConsume(y.redis, session, id, f.start, o.now).value;
        BookOnlyBooks(y.db, Listed(held.1, o.now), f, f.person.value, o.now, d, Conflict);
      }
    case WalksIn(f, d) =>
      if outcome.Ok? { BookOnlyBooks(y.db, Listed(y.redis, o.now), f, f.person.value, o.now, d, DatabaseError); }
    case Moves(t, start, d) =>
  }

  /** A ticket's first status is Booked. */
  lemma BornBooked(y: System, o: Occurrence, t: TicketId)
    requires Good(y) && Legal(y, o) && t in Next(y, o).db.tickets && t !in y.db.tickets
    ensures Next(y, o).db.tickets[t].status == Booked && Next(y, o).db.tickets[t].callAttempts == 0 && o.event.AtDesk?
  {
    match o.event
    case OnQueue(_) => QueueTickets(y, o);
    case AtDesk(_) => DeskTickets(y, o);
    case _ => OfficeTickets(y, o);
  }

  /** Only closed tickets leave the table, and only by the purge. */
  lemma LeavesClosed(y: System, o: Occurrence, t: TicketId)
    requires Good(y) && Legal(y, o) && t in y.db.tickets && t !in Next(y, o).db.tickets
    ensures Terminal(y.db.tickets[t].status) && o.event.OnQueue? && o.event.q.Purges?
  {
    match o.event
    case OnQueue(_) => QueueTickets(y, o);
    case AtDesk(_) => DeskTickets(y, o);
    case _ => OfficeTickets(y, o);
  }

  // ----- assignments -----

  /** The state of a run before its occurrence `i`. */
  ghost function Reached(y: System, run: seq<Occurrence>, i: nat): System
    requires Good(y) && LegalRun(y, run) && i <= |run|
    ensures Good(Reached(y, run, i)) && LegalRun(Reached(y, run, i), run[i..])
    decreases |run|
  {
    if i == 0 then (assert run[0..] == run; y)
    else (NextGood(y, run[0]); assert run[1..][i - 1..] == run[i..]; Reached(Next(y, run[0]), run[1..], i - 1))
  }

  lemma {:induction false} ReachedNext(y: System, run: seq<Occurrence>, i: nat)
    requires Good(y) && LegalRun(y, run) && i < |run|
    ensures Legal(Reached(y, run, i), run[i]) && Reached(y, run, i + 1) == Next(Reached(y, run, i), run[i])
    decreases |run|
  {
    NextGood(y, run[0]);
    if i > 0 { ReachedNext(Next(y, run[0]), run[1..], i - 1); }
  }

  lemma ReachedStep(y: System, run: seq<Occurrence>, i: nat)
    requires Good(y) && LegalRun(y, run) && i < |run|
    ensures Evolves(Reached(y, run, i).db, Reached(y, run, i + 1).db)
  {
    ReachedNext(y, run, i);
    NextGood(Reached(y, run, i), run[i]);
  }

  lemma {:induction false} EvolvesAlong(states: seq<State>, i: nat, j: nat)
    requires i <= j < |states|
    requires forall k | 0 <= k < |states| :: References(states[k])
    requires forall k | 0 < k < |states| :: Evolves(states[k - 1], states[k])
    ensures Evolves(states[i], states[j])
    decreases j - i
  {
    if i == j {
      assert TicketsEvolve(states[i], states[i]);
    } else {
      EvolvesAlong(states, i, j - 1);
      assert References(states[j - 1]) && Evolves(states[j - 1], states[j]);
      EvolvesTransitive(states[i], states[j - 1], states[j]);
    }
  }

  // The tables of a run, state by state.
  lemma TablesOf(y: System, run: seq<Occurrence>) returns (states: seq<State>)
    requires Good(y) && LegalRun(y, run)
    ensures |states| == |run| + 1
    ensures forall k | 0 <= k <= |run| :: states[k] == Reached(y, run, k).db
    ensures forall k | 0 <= k <= |run| :: Safe(states[k])
    ensures forall k | 0 < k <= |run| :: Evolves(states[k - 1], states[k])
  {
    states := seq(|run| + 1, k requires 0 <= k <= |run| => Reached(y, run, k).db);
    forall k | 0 < k <= |run| ensures Evolves(states[k - 1], states[k]) { ReachedStep(y, run, k - 1); }
  }

  /** No run goes backwards between any two of its states. */
  lemma ReachedEvolves(y: System, run: seq<Occurrence>, i: nat, j: nat)
    requires Good(y) && LegalRun(y, run) && i <= j <= |run|
    ensures Evolves(Reached(y, run, i).db, Reached(y, run, j).db)
  {
    var states := TablesOf(y, run);
    EvolvesAlong(states, i, j);
    assert states[i] == Reached(y, run, i).db && states[j] == Reached(y, run, j).db;
  }

  /** Booked comes first, a ticket being served can only be completed, and what is closed stays as it is. */
  lemma Lifecycle(y: System, run: seq<Occurrence>, i: nat, j: nat, t: TicketId)
    requires Good(y) && LegalRun(y, run) && i <= j <= |run|
    requires t in Reached(y, run, i).db.tickets && t in Reached(y, run, j).db.tickets
    ensures var x, z := Reached(y, run, i).db.tickets[t].status, Reached(y, run, j).db.tickets[t].status;
            && (z == Booked ==> x == Booked)
            && (x == InService ==> z == InService || z == Completed)
            && (Terminal(x) ==> z == x)
  {
    ReachedEvolves(y, run, i, j);
  }

  // ----- new work -----

  /** The assignment is new and its employee reserved for a ticket that is assigned or called. */
  predicate NewWork(s: State, s': State, a: AssignmentId) {
    && a in s'.assignments && s'.assignments[a].active
    && s'.assignments[a].employee in s'.employees && s'.employees[s'.assignments[a].employee].status == Reserved
    && s'.assignments[a].ticket in s'.tickets
    && var status := s'.tickets[s'.assignments[a].ticket].status;
       if s'.assignments[a].calledAt.Some? then status == Called else status == Assigned
  }

  // Every assignment that was not there before is new work.
  ghost predicate OnlyNewWork(s: State, s': State) {
    forall a: AssignmentId | a in s'.assignments && a !in s.assignments :: NewWork(s, s', a)
  }

  lemma AssignNextNewWork(s: State, m: State, e: EmployeeId, pick: Option<TicketId>)
    requires References(m) && GoodPick(m, e, pick) && m.assignments.Keys == s.assignments.Keys
    ensures OnlyNewWork(s, AssignNext(m, e, pick))
  {
    TakesNext(m, e, pick);
    if pick.Some? { HandedOutNewWork(s, m, AssignNext(m, e, pick), pick.value, e, Assigned, None); }
  }

  lemma CheckInNewWork(s: State, t: TicketId, now: Instant, order: seq<EmployeeId>)
    requires Safe(s) && CheckIn(s, t, now, order).Ok?
    ensures OnlyNewWork(s, CheckIn(s, t, now, order).value)
  {
    var m := Arrived(s, t, now);
    MatchesFor(m, m.tickets[t], order);
    ChecksInSo(s, t, now, order, MatchFor(m, m.tickets[t], order));
  }

  lemma HandedOutNewWork(s: State, m: State, s': State, t: TicketId, e: EmployeeId, status: TicketStatus,
                         calledAt: Option<Instant>)
    requires m.assignments.Keys == s.assignments.Keys && HandedOut(m, s', t, e, status, calledAt)
    requires (status == Assigned && calledAt.None?) || (status == Called && calledAt.Some?)
    ensures OnlyNewWork(s, s')
  {
  }

  lemma CompletionNoNewWork(s: State, user: EmployeeId, t: TicketId, status: TicketStatus, now: Instant)
    requires Safe(s) && ManagerChange(s, user, t, status, now).Ok? && s.tickets[t].status != status && status != Called
    ensures var p := ManagerChange(s, user, t, status, now).value;
            && References(p.tables) && p.tables.assignments.Keys == s.assignments.Keys
            && (p.dispatch.Some? ==> p.dispatch.value == user)
  {
    assert References(ManagerChange(s, user, t, status, now).value.tables) by {
      ManagerChangeTables(s, user, t, status, now);
    }
    ManagerChanges(s, user, t, status, now);
  }

  lemma ManagerNewWork(s: State, user: EmployeeId, t: TicketId, status: TicketStatus, now: Instant,
                       pick: Option<TicketId>)
    requires Safe(s) && ManagerChange(s, user, t, status, now).Ok?
    requires GoodTail(ManagerChange(s, user, t, status, now).value, pick)
    ensures OnlyNewWork(s, Tail(ManagerChange(s, user, t, status, now).value, pick))
  {
    var p := ManagerChange(s, user, t, status, now).value;
    if s.tickets[t].status == status {
      ManagerChanges(s, user, t, status, now);
    } else if status == Called {
      ManagerChanges(s, user, t, status, now);
      HandedOutNewWork(s, s, p.tables, t, user, Called, Some(now));
    } else {
      CompletionNoNewWork(s, user, t, status, now);
      if p.dispatch.Some? { AssignNextNewWork(s, p.tables, user, pick); }
    }
  }

  lemma TurnNewWork(s: State, user: EmployeeId, status: EmployeeStatus, now: Instant, pick: Option<TicketId>)
    requires Safe(s) && (status == Available || status == Paused || status == Offline)
    requires ChangeEmployeeStatus(s, user, status, now).Ok?
    requires GoodTail(ChangeEmployeeStatus(s, user, status, now).value, pick)
    ensures OnlyNewWork(s, Tail(ChangeEmployeeStatus(s, user, status, now).value, pick))
  {
    TurnsSo(s, user, status, now);
    ChangeEmployeeStatusTables(s, user, status, now);
    var p := ChangeEmployeeStatus(s, user, status, now).value;
    if p.dispatch.Some? { AssignNextNewWork(s, p.tables, user, pick); }
  }

  lemma {:induction false} SweepNoNewWork(s: State, due: seq<TicketId>, now: Instant)
    ensures RetireAll(s, due, now).assignments.Keys <= s.assignments.Keys
  {
    if due != [] { SweepNoNewWork(s, due[..|due| - 1], now); }
  }

  lemma SeatNoNewWork(s: State, e: EmployeeId, desk: Option<DeskId>, now: Instant)
    requires Safe(s) && SetDesk(s, e, desk, now).Ok?
    ensures SetDesk(s, e, desk, now).value.assignments.Keys == s.assignments.Keys
  {
    match desk
    case None => LeavesDesk(s, e, now);
    case Some(d) => SeatsWhen(s, e, d, now);
  }

  lemma RedirectNoNewWork(s: State, e: EmployeeId, country: Country, now: Instant)
    requires Safe(s) && SetCountry(s, e, country, now).Ok?
    ensures SetCountry(s, e, country, now).value.assignments.Keys == s.assignments.Keys
  {
    RedirectsSo(s, e, country, now);
  }

  /** Whenever a transaction makes a new assignment, its employee is reserved for it afterwards. */
  lemma NewWorkReserved(s: State, q: DispatchStep, now: Instant)
    requires Safe(s) && QueueLegal(s, q, now) && Queue(s, q, now).Ok?
    ensures OnlyNewWork(s, Queue(s, q, now).value)
  {
    match q
    case ChecksIn(t, order) => CheckInNewWork(s, t, now, order);
    case ManagerSets(user, t, status, pick) => ManagerNewWork(s, user, t, status, now, pick);
    case Turns(user, status, pick) => TurnNewWork(s, user, status, now, pick);
    case Dispatches(e, pick) => if pick.Some? { AssignNextNewWork(s, s, e, pick); }
    case SweepsMissed(due) => SweepNoNewWork(s, due, now);
    case Seats(e, desk) => SeatNoNewWork(s, e, desk, now);
    case Redirects(e, country) => RedirectNoNewWork(s, e, country, now);
    case _ =>
  }

  /** The stage an action brings its assignment to. */
  function StageAfter(action: Action): int {
    match action
    case Call => 1
    case Start => 2
    case _ => 3
  }

  lemma ActStages(s: State, user: EmployeeId, a: AssignmentId, action: Action, now: Instant)
    requires Safe(s) && Act(s, user, a, action, now).Ok?
    ensures Stage(s, a) < StageAfter(action) == Stage(Act(s, user, a, action, now).value, a)
  {
    assert Fits(s.assignments[a], s.tickets[s.assignments[a].ticket], s.employees[user]);
  }

  ghost predicate Succeeds(y: System, o: Occurrence, a: AssignmentId, action: Action)
    requires Good(y)
  {
    && o.event.OnQueue? && o.event.q.Acts? && o.event.q.a == a && o.event.q.action == action
    && Act(y.db, o.event.q.user, a, action, o.now).Ok?
  }

  /** On one assignment each action succeeds at most once in a run, and a later success is of a later stage. */
  lemma ActOnce(y: System, run: seq<Occurrence>, i: nat, j: nat, a: AssignmentId, first: Action, second: Action)
    requires Good(y) && LegalRun(y, run) && i < j < |run|
    requires Succeeds(Reached(y, run, i), run[i], a, first) && Succeeds(Reached(y, run, j), run[j], a, second)
    ensures StageAfter(first) < StageAfter(second) && first != second
  {
    var u, v := Reached(y, run, i), Reached(y, run, j);
    ActStages(u.db, run[i].event.q.user, a, first, run[i].now);
    ActStages(v.db, run[j].event.q.user, a, second, run[j].now);
    ReachedNext(y, run, i);
    ReachedEvolves(y, run, i + 1, j);
  }
}
