/** What each transaction of the dispatch protocol does and when, written out over the rows of the tables. */
module DispatchLaws {
  import opened Domain
  import opened QueueRules
  import opened Tables
  import opened Dispatch
  import opened Sweeps

  // ----- handing out a ticket -----

  /** The ticket, the employee and the assignment have the given rows, and nothing else is touched. */
  predicate Writes(s: State, s': State, t: TicketId, ticket: Ticket, e: EmployeeId, employee: Employee,
                   a: AssignmentId, row: Assignment)
  {
    && s'.tickets == s.tickets[t := ticket] && s'.employees == s.employees[e := employee]
    && s'.assignments == s.assignments[a := row]
    && s'.place == s.place && s'.nextTicket == s.nextTicket
  }

  /** The employee is reserved for the ticket, and one assignment is new, at the employee's desk. */
  predicate HandedOut(s: State, s': State, t: TicketId, e: EmployeeId, status: TicketStatus,
                      calledAt: Option<Instant>)
  {
    && t in s.tickets && e in s.employees && s.nextAssignment !in s.assignments
    && Writes(s, s', t, s.tickets[t].(status := status), e, s.employees[e].(status := Reserved), s.nextAssignment,
              Assignment(t, e, s.employees[e].desk, true, calledAt, None, None))
    && s'.nextAssignment == s.nextAssignment + 1
  }

  /** The employee's own country is this one, or it has none and its desk's is. */
  predicate WorksFor(s: State, e: EmployeeId, country: Country) {
    && e in s.employees
    && var row := s.employees[e];
       if row.country.Some? then row.country.value == country
       else row.desk.Some? && row.desk.value in s.place.desks && s.place.desks[row.desk.value].country == country
  }

  /** The employee has no assignment, nor has its desk. */
  predicate FreeToTake(s: State, e: EmployeeId) {
    && e in s.employees && s.employees[e].desk.Some?
    && forall a | a in s.assignments && s.assignments[a].active ::
         s.assignments[a].employee != e && s.assignments[a].desk != s.employees[e].desk
  }

  /** The ticket waits at the employee's site, for its country and one of its services. */
  predicate Suits(s: State, e: EmployeeId, t: TicketId) {
    && e in s.employees && t in s.tickets
    && var ticket, employee := s.tickets[t], s.employees[e];
       && (ticket.status == CheckedIn || ticket.status == Requeued)
       && employee.site == Some(ticket.site)
       && ticket.country.Some? && WorksFor(s, e, ticket.country.value)
       && (|employee.services| == 0 || ticket.service in employee.services)
  }

  lemma SuitsExactly(s: State, e: EmployeeId, t: TicketId)
    ensures Suits(s, e, t) <==> Eligible(s, e, t)
  {
  }

  lemma FreeToTakeExactly(s: State, e: EmployeeId)
    ensures FreeToTake(s, e) <==>
              e in s.employees && s.employees[e].desk.Some? && Idle(s, e) && !DeskBusy(s, s.employees[e].desk.value)
  {
    if e in s.employees && s.employees[e].desk.Some? {
      assert forall a: AssignmentId | a in s.assignments && s.assignments[a].active :: IsActive(s, a);
      assert forall a: AssignmentId | IsActive(s, a) && s.assignments[a].employee == e :: ActiveBy(s, a, e);
    }
  }

  /** A ticket is taken exactly when the employee is free to take one and one suits. */
  lemma TakesWhen(s: State, e: EmployeeId, pick: Option<TicketId>)
    requires GoodPick(s, e, pick)
    ensures pick.Some? <==> FreeToTake(s, e) && exists t :: Suits(s, e, t)
    ensures pick.Some? ==> Suits(s, e, pick.value)
  {
    FreeToTakeExactly(s, e);
    forall t ensures Suits(s, e, t) <==> Eligible(s, e, t) { SuitsExactly(s, e, t); }
  }

  /** With a slot before without, then the higher priority, the earlier slot, the earlier arrival. */
  predicate NotBehind(x: Ticket, y: Ticket) {
    && (y.scheduledAt.Some? ==> x.scheduledAt.Some?)
    && (x.scheduledAt.Some? == y.scheduledAt.Some? ==> x.priority >= y.priority)
    && (x.scheduledAt.Some? && y.scheduledAt.Some? && x.priority == y.priority ==>
          x.scheduledAt.value <= y.scheduledAt.value)
    && (x.scheduledAt == y.scheduledAt && x.priority == y.priority ==> x.createdAt <= y.createdAt)
  }

  /** The ticket taken is not behind any in its pool, and the pool is the employee's own desk's if that has one. */
  lemma TakesInOrder(s: State, e: EmployeeId, t: TicketId, u: TicketId)
    requires GoodPick(s, e, Some(t)) && Suits(s, e, u)
    ensures s.tickets[u].reservedDesk == s.employees[e].desk ==> s.tickets[t].reservedDesk == s.employees[e].desk
    ensures s.tickets[u].reservedDesk == s.employees[e].desk || s.tickets[t].reservedDesk != s.employees[e].desk ==>
              NotBehind(s.tickets[t], s.tickets[u])
  {
    assert FirstInOrder(s, e, t) && Eligible(s, e, u);
    if EligibleOwn(s, e, u) || s.tickets[t].reservedDesk != s.employees[e].desk {
      assert !Before(s.tickets[u], s.tickets[t]);
    }
  }

  /** assignNext hands the ticket to the employee, or changes nothing. */
  lemma TakesNext(s: State, e: EmployeeId, pick: Option<TicketId>)
    requires References(s) && GoodPick(s, e, pick)
    ensures match pick
            case Some(t) => HandedOut(s, AssignNext(s, e, pick), t, e, Assigned, None)
            case None => AssignNext(s, e, pick) == s
  {
  }

  // ----- check-in -----

  /** The employee works for exactly the ticket's country; for a ticket without one, for none. */
  predicate SameCountry(s: State, e: EmployeeId, ticket: Ticket) {
    match ticket.country
    case Some(country) => WorksFor(s, e, country)
    case None => !WorksFor(s, e, RF) && !WorksFor(s, e, CN)
  }

  predicate AtItsDesk(s: State, ticket: Ticket, e: EmployeeId) {
    e in s.employees && s.employees[e].desk == ticket.reservedDesk && SameCountry(s, e, ticket)
  }

  predicate AtItsSite(s: State, ticket: Ticket, e: EmployeeId) {
    && e in s.employees && s.employees[e].desk.Some? && s.employees[e].site == Some(ticket.site)
    && SameCountry(s, e, ticket)
  }

  predicate NoneAtItsDesk(s: State, ticket: Ticket, order: seq<EmployeeId>) {
    forall i | 0 <= i < |order| :: !AtItsDesk(s, ticket, order[i])
  }

  predicate NoneAtItsSite(s: State, ticket: Ticket, order: seq<EmployeeId>) {
    forall i | 0 <= i < |order| :: !AtItsSite(s, ticket, order[i])
  }

  /** The first in the list at the ticket's desk, or else the first at its site, or else nobody. */
  predicate Matches(s: State, ticket: Ticket, order: seq<EmployeeId>, r: Option<EmployeeId>) {
    match r
    case None => NoneAtItsDesk(s, ticket, order) && NoneAtItsSite(s, ticket, order)
    case Some(e) =>
      || (exists i | 0 <= i < |order| ::
            order[i] == e && AtItsDesk(s, ticket, e) && NoneAtItsDesk(s, ticket, order[..i]))
      || (NoneAtItsDesk(s, ticket, order)
          && exists i | 0 <= i < |order| ::
               order[i] == e && AtItsSite(s, ticket, e) && NoneAtItsSite(s, ticket, order[..i]))
  }

  lemma {:induction false} FindsFirst(order: seq<EmployeeId>, p: EmployeeId -> bool)
    ensures Find(order, p).Some? ==>
              exists i | 0 <= i < |order| :: order[i] == Find(order, p).value && forall j | 0 <= j < i :: !p(order[j])
    decreases |order|
  {
    if order != [] && !p(order[0]) {
      FindsFirst(order[1..], p);
      if Find(order, p).Some? {
        var i :| 0 <= i < |order[1..]| && order[1..][i] == Find(order, p).value
                 && forall j | 0 <= j < i :: !p(order[1..][j]);
        assert order[i + 1] == Find(order, p).value;
        forall j | 0 <= j < i + 1 ensures !p(order[j]) {
          if j > 0 { assert order[j] == order[1..][j - 1]; }
        }
      }
    }
  }

  lemma DeskAndSite(s: State, ticket: Ticket, e: EmployeeId)
    ensures AtItsDesk(s, ticket, e) <==> AtDeskOf(s, ticket, e)
    ensures AtItsSite(s, ticket, e) <==> AtSiteOf(s, ticket, e)
  {
  }

  /** The search comes to the nearest employee at the desk, and only then at the site. */
  lemma MatchesFor(s: State, ticket: Ticket, order: seq<EmployeeId>)
    ensures Matches(s, ticket, order, MatchFor(s, ticket, order))
  {
    var atDesk, atSite := (e: EmployeeId) => AtDeskOf(s, ticket, e), (e: EmployeeId) => AtSiteOf(s, ticket, e);
    forall e
      ensures AtItsDesk(s, ticket, e) == AtDeskOf(s, ticket, e) && AtItsSite(s, ticket, e) == AtSiteOf(s, ticket, e)
    {
      DeskAndSite(s, ticket, e);
    }
    assert forall i | 0 <= i < |order| :: order[i] in order;
    FindsFirst(order, atDesk);
    FindsFirst(order, atSite);
    if Find(order, atDesk).Some? {
      var e := Find(order, atDesk).value;
      var i :| 0 <= i < |order| && order[i] == e && forall j | 0 <= j < i :: !atDesk(order[j]);
      assert NoneAtItsDesk(s, ticket, order[..i]);
    } else if Find(order, atSite).Some? {
      var e := Find(order, atSite).value;
      var i :| 0 <= i < |order| && order[i] == e && forall j | 0 <= j < i :: !atSite(order[j]);
      assert NoneAtItsSite(s, ticket, order[..i]);
    }
  }

  lemma NearestAtDesk(s: State, ticket: Ticket, order: seq<EmployeeId>, i: nat, j: nat)
    requires i < |order| && AtItsDesk(s, ticket, order[i]) && NoneAtItsDesk(s, ticket, order[..i])
    requires j < |order| && AtItsDesk(s, ticket, order[j]) && NoneAtItsDesk(s, ticket, order[..j])
    ensures i == j
  {
    assert forall k | 0 <= k < i :: order[..i][k] == order[k];
    assert forall k | 0 <= k < j :: order[..j][k] == order[k];
  }

  lemma NearestAtSite(s: State, ticket: Ticket, order: seq<EmployeeId>, i: nat, j: nat)
    requires i < |order| && AtItsSite(s, ticket, order[i]) && NoneAtItsSite(s, ticket, order[..i])
    requires j < |order| && AtItsSite(s, ticket, order[j]) && NoneAtItsSite(s, ticket, order[..j])
    ensures i == j
  {
    assert forall k | 0 <= k < i :: order[..i][k] == order[k];
    assert forall k | 0 <= k < j :: order[..j][k] == order[k];
  }

  /** There is one answer only. */
  lemma MatchesOne(s: State, ticket: Ticket, order: seq<EmployeeId>, r: Option<EmployeeId>)
    requires Matches(s, ticket, order, r)
    ensures r == MatchFor(s, ticket, order)
  {
    var m := MatchFor(s, ticket, order);
    MatchesFor(s, ticket, order);
    if !NoneAtItsDesk(s, ticket, order) {
      var i :| 0 <= i < |order| && order[i] == r.value && AtItsDesk(s, ticket, order[i])
               && NoneAtItsDesk(s, ticket, order[..i]);
      var j :| 0 <= j < |order| && order[j] == m.value && AtItsDesk(s, ticket, order[j])
               && NoneAtItsDesk(s, ticket, order[..j]);
      NearestAtDesk(s, ticket, order, i, j);
    } else if !NoneAtItsSite(s, ticket, order) {
      var i :| 0 <= i < |order| && order[i] == r.value && AtItsSite(s, ticket, order[i])
               && NoneAtItsSite(s, ticket, order[..i]);
      var j :| 0 <= j < |order| && order[j] == m.value && AtItsSite(s, ticket, order[j])
               && NoneAtItsSite(s, ticket, order[..j]);
      NearestAtSite(s, ticket, order, i, j);
    }
  }

  predicate DeskTaken(s: State, d: DeskId) {
    exists a | a in s.assignments :: s.assignments[a].active && s.assignments[a].desk == Some(d)
  }

  lemma DeskTakenExactly(s: State, d: DeskId)
    ensures DeskTaken(s, d) <==> DeskBusy(s, d)
  {
    if DeskTaken(s, d) {
      var a :| a in s.assignments && s.assignments[a].active && s.assignments[a].desk == Some(d);
      assert IsActive(s, a);
    }
  }

  /** Check-in is open from a quarter of an hour before the slot until its end. */
  predicate MayCheckIn(row: Ticket, now: Instant) {
    && row.status == Booked && row.scheduledAt.Some?
    && row.scheduledAt.value - 900_000 <= now <= row.scheduledAt.value + row.duration * 60_000
  }

  /** The ticket has arrived. */
  function Arrived(s: State, t: TicketId, now: Instant): State
    requires t in s.tickets
  {
    s.(tickets := s.tickets[t := s.tickets[t].(status := CheckedIn, priority := 1, checkedInAt := Some(now))])
  }

  lemma ChecksInWhen(s: State, t: TicketId, now: Instant, order: seq<EmployeeId>)
    ensures CheckIn(s, t, now, order).Ok? <==> t in s.tickets && MayCheckIn(s.tickets[t], now)
    ensures CheckIn(s, t, now, order).Err? ==>
              CheckIn(s, t, now, order).error == if t in s.tickets then BadRequest else NotFound
  {
  }

  /** The arrived ticket goes to the employee it matches if that has a desk and the desk is free, else it waits. */
  lemma ChecksInSo(s: State, t: TicketId, now: Instant, order: seq<EmployeeId>, r: Option<EmployeeId>)
    requires References(s) && CheckIn(s, t, now, order).Ok?
    requires Matches(Arrived(s, t, now), Arrived(s, t, now).tickets[t], order, r)
    ensures var s', m := CheckIn(s, t, now, order).value, Arrived(s, t, now);
            if r.Some? && m.employees[r.value].desk.Some? && !DeskTaken(m, m.employees[r.value].desk.value)
            then HandedOut(m, s', t, r.value, Assigned, None)
            else s' == m
  {
    var m := Arrived(s, t, now);
    MatchesOne(m, m.tickets[t], order, r);
    if r.Some? && m.employees[r.value].desk.Some? { DeskTakenExactly(m, m.employees[r.value].desk.value); }
  }

  // ----- the manager's status change -----

  predicate ServedByUser(s: State, user: EmployeeId, t: TicketId, a: AssignmentId) {
    a in s.assignments && s.assignments[a].active && s.assignments[a].ticket == t && s.assignments[a].employee == user
  }

  predicate AtWork(s: State, user: EmployeeId) {
    exists a | a in s.assignments :: s.assignments[a].active && s.assignments[a].employee == user
  }

  predicate UnderWay(status: TicketStatus) {
    status == Assigned || status == Called || status == InService
  }

  predicate Over(status: TicketStatus) {
    status == Completed || status == Cancelled || status == NoShow
  }

  predicate SiteAllows(s: State, user: EmployeeId, t: TicketId) {
    && user in s.employees && t in s.tickets
    && (s.employees[user].site.None? || s.employees[user].site == Some(s.tickets[t].site))
  }

  /** The manager leaves the ticket as it is, calls one nobody serves, or completes its own. */
  predicate ManagerMay(s: State, user: EmployeeId, t: TicketId, status: TicketStatus) {
    && SiteAllows(s, user, t)
    && var was := s.tickets[t].status;
       && (UnderWay(was) ==> exists a: AssignmentId | a in s.assignments :: ServedByUser(s, user, t, a))
       && (was == status
           || (status == Called && !UnderWay(was) && !Over(was) && !AtWork(s, user))
           || (status == Completed && UnderWay(was)))
  }

  lemma AtWorkExactly(s: State, user: EmployeeId)
    ensures AtWork(s, user) <==> !Idle(s, user)
  {
    if AtWork(s, user) {
      var a :| a in s.assignments && s.assignments[a].active && s.assignments[a].employee == user;
      assert ActiveBy(s, a, user);
    }
  }

  lemma ManagerMayExactly(s: State, user: EmployeeId, t: TicketId, status: TicketStatus, now: Instant)
    requires Safe(s)
    ensures ManagerChange(s, user, t, status, now).Ok? <==> ManagerMay(s, user, t, status)
  {
    if SiteAllows(s, user, t) {
      ManagerServes(s, user, t);
      AtWorkExactly(s, user);
    }
  }

  lemma ManagerServes(s: State, user: EmployeeId, t: TicketId)
    requires Safe(s) && t in s.tickets
    ensures AssignmentFor(s, t).Some? <==> UnderWay(s.tickets[t].status)
    ensures (exists a: AssignmentId :: ServedByUser(s, user, t, a)) <==>
              AssignmentFor(s, t).Some? && ActiveBy(s, AssignmentFor(s, t).value, user)
    ensures forall a: AssignmentId | ServedByUser(s, user, t, a) :: AssignmentFor(s, t) == Some(a)
  {
    if !InProgress(s.tickets[t].status) { NotServedUnassigned(s, t); }
    if a: AssignmentId :| ServedByUser(s, user, t, a) { assert ActiveFor(s, a, t); }
    forall a: AssignmentId | ServedByUser(s, user, t, a) ensures AssignmentFor(s, t) == Some(a) {
      assert ActiveFor(s, a, t);
    }
    if AssignmentFor(s, t).Some? && ActiveBy(s, AssignmentFor(s, t).value, user) {
      assert ServedByUser(s, user, t, AssignmentFor(s, t).value);
    }
  }

  /** The error, in the order in which the guards stand. */
  lemma ManagerErrors(s: State, user: EmployeeId, t: TicketId, status: TicketStatus, now: Instant)
    requires Safe(s) && ManagerChange(s, user, t, status, now).Err?
    ensures ManagerChange(s, user, t, status, now).error ==
            if t !in s.tickets || user !in s.employees then NotFound
            else if !SiteAllows(s, user, t) then Forbidden
            else
              var was := s.tickets[t].status;
              if was != status && (Over(was) || (if UnderWay(was) then status != Completed else status != Called)) then
                BadRequest
              else if UnderWay(was) then Forbidden else BadRequest
  {
    if t in s.tickets { ManagerServes(s, user, t); }
  }

  /** The assignment closes with its ticket and sets its employee free. */
  predicate Closes(s: State, s': State, a: AssignmentId, ticket: Ticket, status: EmployeeStatus, at: Option<Instant>) {
    && a in s.assignments && s.assignments[a].active && s.assignments[a].employee in s.employees
    && s'.nextAssignment == s.nextAssignment
    && var row := s.assignments[a];
       Writes(s, s', row.ticket, ticket, row.employee, s.employees[row.employee].(status := status),
              a, row.(active := false, completedAt := at))
  }

  lemma ManagerChanges(s: State, user: EmployeeId, t: TicketId, status: TicketStatus, now: Instant)
    requires Safe(s) && ManagerChange(s, user, t, status, now).Ok?
    ensures var p := ManagerChange(s, user, t, status, now).value;
            if s.tickets[t].status == status then p == Progress(s, None)
            else if status == Called then p.dispatch.None? && HandedOut(s, p.tables, t, user, Called, Some(now))
            else
              && (exists a: AssignmentId :: ServedByUser(s, user, t, a)
                    && Closes(s, p.tables, a, s.tickets[t].(status := Completed), Available, Some(now)))
              && p.dispatch == if s.employees[user].desk.Some? then Some(user) else None
  {
    if s.tickets[t].status != status && status != Called {
      ManagerServes(s, user, t);
      assert ServedByUser(s, user, t, AssignmentFor(s, t).value);
    }
  }

  // ----- what an employee does with its assignment -----

  /** The actions there are from each status. */
  predicate Allowed(action: Action, status: TicketStatus, slotted: bool) {
    || (action == Call && status == Assigned)
    || (action == Start && (status == Called || (status == Assigned && slotted)))
    || (action == Complete && status == InService)
    || (action == Requeue && (status == Assigned || status == Called))
    || (action == MissedCall && status == Called)
  }

  /** An action succeeds exactly on the caller's own active assignment and from the statuses listed. */
  lemma ActsWhen(s: State, user: EmployeeId, a: AssignmentId, action: Action, now: Instant)
    requires Safe(s)
    ensures var own := a in s.assignments && s.assignments[a].active && s.assignments[a].employee == user;
            && (Act(s, user, a, action, now).Ok? <==>
                  own && var ticket := s.tickets[s.assignments[a].ticket];
                         Allowed(action, ticket.status, ticket.scheduledAt.Some?))
            && (Act(s, user, a, action, now).Err? ==>
                  Act(s, user, a, action, now).error == if own then BadRequest else NotFound)
  {
    if IsActive(s, a) {
      var row := s.assignments[a];
      assert Fits(row, s.tickets[row.ticket], s.employees[row.employee]);
    }
  }

  /** CALL counts and notes the time, START makes the employee busy, the others close the assignment. */
  lemma ActsSo(s: State, user: EmployeeId, a: AssignmentId, action: Action, now: Instant)
    requires Safe(s) && Act(s, user, a, action, now).Ok?
    ensures var s', row := Act(s, user, a, action, now).value, s.assignments[a];
            var ticket, employee := s.tickets[row.ticket], s.employees[user];
            match action
            case Call =>
              && Writes(s, s', row.ticket, ticket.(status := Called, callAttempts := ticket.callAttempts + 1),
                        user, employee, a, row.(calledAt := Some(now)))
              && s'.nextAssignment == s.nextAssignment
            case Start =>
              && Writes(s, s', row.ticket, ticket.(status := InService),
                        user, employee.(status := Busy), a, row.(startedAt := Some(now)))
              && s'.nextAssignment == s.nextAssignment
            case Complete => Closes(s, s', a, ticket.(status := Completed), Available, Some(now))
            case Requeue => Closes(s, s', a, ticket.(status := Requeued, priority := 0), Available, Some(now))
            case MissedCall => Closes(s, s', a, ticket.(status := NoShow), Available, Some(now))
  {
    assert Fits(s.assignments[a], s.tickets[s.assignments[a].ticket], s.employees[user]);
  }

  // ----- leaving the queue -----

  /** The ticket gets the status, and whoever serves it is set free. */
  predicate Leaves(s: State, s': State, t: TicketId, status: TicketStatus, at: Option<Instant>) {
    && t in s.tickets
    && var ticket := s.tickets[t].(status := status);
       || (s' == s.(tickets := s.tickets[t := ticket])
           && forall a | a in s.assignments && s.assignments[a].ticket == t :: !s.assignments[a].active)
       || exists a | a in s.assignments :: s.assignments[a].ticket == t && Closes(s, s', a, ticket, Available, at)
  }

  lemma RetiresSo(s: State, t: TicketId, status: TicketStatus, at: Option<Instant>)
    requires References(s) && t in s.tickets && status != Requeued
    ensures Leaves(s, Retire(s, t, status, at), t, status, at)
  {
    match AssignmentFor(s, t)
    case Some(a) => assert Closes(s, Retire(s, t, status, at), a, s.tickets[t].(status := status), Available, at);
    case None =>
      forall a | a in s.assignments && s.assignments[a].ticket == t ensures !s.assignments[a].active {
        assert !ActiveFor(s, a, t);
      }
  }

  /** A ticket may be cancelled until it is served or over; then it is cancelled, and the assignment has no end time. */
  lemma CancelsSo(s: State, t: TicketId)
    requires References(s)
    ensures Cancel(s, t).Ok? <==> t in s.tickets && !Over(s.tickets[t].status) && s.tickets[t].status != InService
    ensures Cancel(s, t).Err? ==> Cancel(s, t).error == if t in s.tickets then Conflict else NotFound
    ensures Cancel(s, t).Ok? ==> Leaves(s, Cancel(s, t).value, t, Cancelled, None)
  {
    if Cancel(s, t).Ok? { RetiresSo(s, t, Cancelled, None); }
  }

  /** A booking is a no-show once its slot is over. */
  lemma MarksNoShowSo(s: State, t: TicketId, now: Instant)
    ensures MarkNoShow(s, t, now).Ok? <==>
              && t in s.tickets && s.tickets[t].status == Booked && s.tickets[t].scheduledAt.Some?
              && s.tickets[t].scheduledAt.value + s.tickets[t].duration * 60_000 < now
    ensures MarkNoShow(s, t, now).Err? ==>
              MarkNoShow(s, t, now).error ==
              if t !in s.tickets then NotFound else if s.tickets[t].status != Booked then Conflict else BadRequest
    ensures MarkNoShow(s, t, now).Ok? ==>
              MarkNoShow(s, t, now).value == s.(tickets := s.tickets[t := s.tickets[t].(status := NoShow)])
  {
  }

  /** A ticket is overdue an hour after its slot began, unless it is called, being served or over. */
  lemma OverdueExactly(s: State, t: TicketId, now: Instant)
    ensures Overdue(s, t, now) <==>
              && t in s.tickets && !Over(s.tickets[t].status)
              && s.tickets[t].status != Called && s.tickets[t].status != InService
              && s.tickets[t].scheduledAt.Some? && s.tickets[t].scheduledAt.value + 3_600_000 <= now
  {
  }

  /** The sweep leaves alone whoever is called, being served or less than an hour late. */
  lemma SweepSpares(s: State, due: seq<TicketId>, now: Instant, t: TicketId)
    requires Safe(s) && Distinct(due) && Ids(due) <= Overdues(s, now) && t in s.tickets
    requires || s.tickets[t].status == Called || s.tickets[t].status == InService
             || s.tickets[t].scheduledAt.None? || now < s.tickets[t].scheduledAt.value + 3_600_000
    ensures var s' := RetireAll(s, due, now);
            && t in s'.tickets && s'.tickets[t] == s.tickets[t]
            && forall a | a in s.assignments && s.assignments[a].ticket == t ::
                 a in s'.assignments && s'.assignments[a] == s.assignments[a]
  {
    OverdueExactly(s, t, now);
    assert t !in Ids(due);
    SweepEffect(s, due, now);
  }

  /** An unanswered call counts as such after ninety seconds. */
  lemma CallExpiredExactly(s: State, a: AssignmentId, now: Instant)
    ensures CallExpired(s, a, now) <==>
              && a in s.assignments && s.assignments[a].active && s.assignments[a].ticket in s.tickets
              && s.tickets[s.assignments[a].ticket].status == Called
              && s.assignments[a].calledAt.Some? && s.assignments[a].calledAt.value + 90_000 < now
  {
  }

  /** The first and an uncounted call put the ticket back, the second makes it a no-show. */
  lemma ExpiresSo(s: State, a: AssignmentId)
    requires Safe(s) && a in s.assignments && s.assignments[a].active
    requires s.tickets[s.assignments[a].ticket].status == Called
    ensures var ticket := s.tickets[s.assignments[a].ticket];
            Closes(s, ExpireCall(s, a), a,
                   if ticket.callAttempts < 2 then ticket.(status := Requeued, priority := 0)
                   else ticket.(status := NoShow),
                   Available, None)
  {
    assert Fits(s.assignments[a], s.tickets[s.assignments[a].ticket], s.employees[s.assignments[a].employee]);
  }

  lemma PurgesSo(s: State, ids: set<TicketId>)
    ensures var s' := Purge(s, ids);
            && (forall t :: t in s'.tickets <==> t in s.tickets && t !in ids)
            && (forall a :: a in s'.assignments <==> a in s.assignments && s.assignments[a].ticket !in ids)
            && (forall t | t in s'.tickets :: s'.tickets[t] == s.tickets[t])
            && (forall a | a in s'.assignments :: s'.assignments[a] == s.assignments[a])
            && s'.employees == s.employees && s'.place == s.place
            && s'.nextTicket == s.nextTicket && s'.nextAssignment == s.nextAssignment
  {
  }

  /** A ticket nobody has called yet, and one that is over, is shown to every manager. */
  lemma OthersVisible(s: State, t: TicketId, viewer: EmployeeId)
    requires References(s) && t in s.tickets && !UnderWay(s.tickets[t].status)
    ensures VisibleInList(s, t, viewer)
  {
  }

  // ----- breaks, seats and directions -----

  predicate WorksOn(s: State, a: AssignmentId, e: EmployeeId) {
    a in s.assignments && s.assignments[a].active && s.assignments[a].employee == e
  }

  ghost predicate ServesSomebody(s: State, e: EmployeeId) {
    exists a: AssignmentId ::
      && WorksOn(s, a, e) && s.assignments[a].ticket in s.tickets
      && s.tickets[s.assignments[a].ticket].status == InService
  }

  ghost predicate HasWork(s: State, e: EmployeeId) {
    exists a: AssignmentId :: WorksOn(s, a, e)
  }

  predicate Takes(s: State, a: AssignmentId, t: TicketId, who: set<EmployeeId>) {
    && a in s.assignments && s.assignments[a].active
    && s.assignments[a].ticket == t && s.assignments[a].employee in who
  }

  ghost predicate TakenFrom(s: State, t: TicketId, who: set<EmployeeId>) {
    exists a: AssignmentId :: Takes(s, a, t, who)
  }

  function GivenBack(row: Assignment, who: set<EmployeeId>, now: Instant): Assignment {
    if row.active && row.employee in who then row.(active := false, completedAt := Some(now)) else row
  }

  /** The tickets of these employees go back into the queue, behind those who have arrived; nothing else moves. */
  ghost predicate GivesBack(s: State, s': State, who: set<EmployeeId>, now: Instant) {
    && s'.tickets == (map t | t in s.tickets ::
                        if TakenFrom(s, t, who) then s.tickets[t].(status := Requeued, priority := 0) else s.tickets[t])
    && s'.assignments == (map a | a in s.assignments :: GivenBack(s.assignments[a], who, now))
    && s'.place == s.place && s'.nextTicket == s.nextTicket && s'.nextAssignment == s.nextAssignment
  }

  lemma AssignmentOfWork(s: State, e: EmployeeId)
    requires Exclusive(s)
    ensures HasWork(s, e) <==> AssignmentOf(s, e).Some?
    ensures forall a: AssignmentId | WorksOn(s, a, e) :: AssignmentOf(s, e) == Some(a)
  {
    forall a: AssignmentId | WorksOn(s, a, e) ensures AssignmentOf(s, e) == Some(a) { assert ActiveBy(s, a, e); }
    if AssignmentOf(s, e).Some? { assert WorksOn(s, AssignmentOf(s, e).value, e); }
  }

  lemma ReleasesWhen(s: State, e: EmployeeId, status: EmployeeStatus, now: Instant)
    requires References(s) && Exclusive(s)
    ensures Release(s, e, status, now).Ok? <==> !ServesSomebody(s, e)
    ensures Release(s, e, status, now).Err? ==> Release(s, e, status, now).error == Conflict
  {
    AssignmentOfWork(s, e);
    if ServesSomebody(s, e) {
      var a :| WorksOn(s, a, e) && s.tickets[s.assignments[a].ticket].status == InService;
      assert AssignmentOf(s, e) == Some(a);
    } else if AssignmentOf(s, e).Some? {
      assert WorksOn(s, AssignmentOf(s, e).value, e);
    }
  }

  lemma ReleasesSo(s: State, e: EmployeeId, status: EmployeeStatus, now: Instant)
    requires References(s) && Exclusive(s) && e in s.employees && Release(s, e, status, now).Ok?
    ensures var m := Release(s, e, status, now).value;
            && GivesBack(s, m, {e}, now)
            && m.employees == if HasWork(s, e) then s.employees[e := s.employees[e].(status := status)] else s.employees
  {
    var m := Release(s, e, status, now).value;
    AssignmentOfWork(s, e);
    match AssignmentOf(s, e)
    case None =>
      forall a | a in s.assignments ensures GivenBack(s.assignments[a], {e}, now) == s.assignments[a] {
        assert !WorksOn(s, a, e);
      }
      assert forall t, a: AssignmentId | Takes(s, a, t, {e}) :: WorksOn(s, a, e);
    case Some(a) => ReleaseRows(s, e, a, status, now);
  }

  lemma ReleaseRows(s: State, e: EmployeeId, a: AssignmentId, status: EmployeeStatus, now: Instant)
    requires References(s) && Exclusive(s) && WorksOn(s, a, e) && AssignmentOf(s, e) == Some(a)
    requires Release(s, e, status, now).Ok?
    ensures GivesBack(s, Release(s, e, status, now).value, {e}, now)
    ensures Release(s, e, status, now).value.employees == s.employees[e := s.employees[e].(status := status)]
  {
    var m := Release(s, e, status, now).value;
    assert m == Close(s, a, Requeued, status, Some(now));
    assert IsActive(s, a);
    forall b | b in s.assignments ensures m.assignments[b] == GivenBack(s.assignments[b], {e}, now) {
      if b != a && s.assignments[b].active { assert IsActive(s, b) && s.assignments[b].employee != e; }
    }
    forall t | t in s.tickets ensures TakenFrom(s, t, {e}) <==> t == s.assignments[a].ticket {
      if b: AssignmentId :| Takes(s, b, t, {e}) { assert IsActive(s, b); }
      if t == s.assignments[a].ticket { assert Takes(s, a, t, {e}); }
    }
  }

  /** When an employee may change its status, and why not otherwise. */
  lemma TurnsWhen(s: State, user: EmployeeId, status: EmployeeStatus, now: Instant)
    requires References(s) && Exclusive(s) && (status == Available || status == Paused || status == Offline)
    ensures ChangeEmployeeStatus(s, user, status, now).Ok? <==>
              && user in s.employees
              && (if status == Available then s.employees[user].desk.Some? else !ServesSomebody(s, user))
    ensures ChangeEmployeeStatus(s, user, status, now).Err? ==>
              ChangeEmployeeStatus(s, user, status, now).error ==
              if user !in s.employees then NotFound else if status == Available then BadRequest else Conflict
  {
    ReleasesWhen(s, user, status, now);
  }

  /** Whoever becomes available keeps what it does and asks for more; whoever leaves gives its ticket back. */
  lemma TurnsSo(s: State, user: EmployeeId, status: EmployeeStatus, now: Instant)
    requires References(s) && Exclusive(s) && (status == Available || status == Paused || status == Offline)
    requires ChangeEmployeeStatus(s, user, status, now).Ok?
    ensures var p := ChangeEmployeeStatus(s, user, status, now).value;
            && p.tables.employees == s.employees[user := s.employees[user].(status := status)]
            && (if status == Available
                then p.dispatch == Some(user) && p.tables == s.(employees := p.tables.employees)
                else p.dispatch == None && GivesBack(s, p.tables, {user}, now))
  {
    if status != Available { ReleasesSo(s, user, status, now); }
  }

  /** The row of an employee that leaves a desk. */
  function Unseated(row: Employee, hadWork: bool): Employee {
    if hadWork then row.(desk := None, status := Paused) else row.(desk := None)
  }

  lemma UnseatsSo(s: State, e: EmployeeId, now: Instant)
    requires References(s) && Exclusive(s) && e in s.employees
    ensures Unseat(s, e, now).Ok? <==> !ServesSomebody(s, e)
    ensures Unseat(s, e, now).Err? ==> Unseat(s, e, now).error == Conflict
    ensures Unseat(s, e, now).Ok? ==>
              var m := Unseat(s, e, now).value;
              && GivesBack(s, m, {e}, now)
              && m.employees == s.employees[e := Unseated(s.employees[e], HasWork(s, e))]
  {
    ReleasesWhen(s, e, Paused, now);
    if Release(s, e, Paused, now).Ok? { ReleasesSo(s, e, Paused, now); }
  }

  /** Those who have to leave the desk for the employee. */
  ghost function Displaced(s: State, d: DeskId, e: EmployeeId): set<EmployeeId> {
    set f | f in s.employees && s.employees[f].desk == Some(d) && f != e
  }

  lemma DisplacedOne(s: State, d: DeskId, e: EmployeeId, f: EmployeeId)
    requires Safe(s) && SeatedAt(s, f, d) && f != e
    ensures Displaced(s, d, e) == {f}
  {
  }

  lemma UnseatedRows(s: State, m: State, d: DeskId, e: EmployeeId, f: EmployeeId)
    requires f in s.employees && Displaced(s, d, e) == {f}
    requires m.employees == s.employees[f := Unseated(s.employees[f], HasWork(s, f))]
    ensures m.employees == map g | g in s.employees ::
              if g in Displaced(s, d, e) then Unseated(s.employees[g], HasWork(s, g)) else s.employees[g]
  {
  }

  lemma NobodyDisplaced(s: State, d: DeskId, e: EmployeeId, now: Instant)
    requires References(s) && forall f: EmployeeId | SeatedAt(s, f, d) :: f == e
    ensures Displaced(s, d, e) == {} && GivesBack(s, s, {}, now)
  {
    assert forall f | f in Displaced(s, d, e) :: SeatedAt(s, f, d) && f != e;
  }

  /** Whoever else sits at the desk gives its ticket back and leaves, unless it is serving somebody. */
  lemma VacatesSo(s: State, d: DeskId, e: EmployeeId, now: Instant)
    requires Safe(s)
    ensures Vacate(s, d, e, now).Ok? <==> forall f | f in Displaced(s, d, e) :: !ServesSomebody(s, f)
    ensures Vacate(s, d, e, now).Err? ==> Vacate(s, d, e, now).error == Conflict
    ensures Vacate(s, d, e, now).Ok? ==>
              var m := Vacate(s, d, e, now).value;
              && GivesBack(s, m, Displaced(s, d, e), now)
              && m.employees == map f | f in s.employees ::
                   if f in Displaced(s, d, e) then Unseated(s.employees[f], HasWork(s, f)) else s.employees[f]
  {
    if exists f: EmployeeId :: SeatedAt(s, f, d) && f != e {
      var f: EmployeeId :| SeatedAt(s, f, d) && f != e && Vacate(s, d, e, now) == Unseat(s, f, now);
      DisplacedOne(s, d, e, f);
      UnseatsSo(s, f, now);
      if Vacate(s, d, e, now).Ok? { UnseatedRows(s, Vacate(s, d, e, now).value, d, e, f); }
    } else {
      NobodyDisplaced(s, d, e, now);
    }
  }
}
