/**
 * The queue service, branch by branch over the tables: every transaction is proved to have exactly the effect
 * Dispatch, Office or Appointments describes. A transaction that throws leaves the database as it was. Where the
 * invariant rules a branch of the program out, the branch is an `assert false` that names what it would do.
 */
module QueueServices {
  import opened Domain
  import opened QueueRules
  import opened Tables
  import opened Dispatch
  import opened Sweeps
  import opened DispatchLaws
  import opened QueuePosition
  import opened Calendar
  import opened Holds
  import opened Booking
  import opened Appointments
  import opened Office
  import opened Storage
  import opened RateLimiting
  import opened Schedule

  /** The transaction has the outcome's effect, or throws its error and has none. */
  ghost predicate Settled(before: State, after: State, r: Result<()>, outcome: Result<State>) {
    match outcome
    case Ok(s) => r.Ok? && after == s
    case Err(error) => r == Err(error) && after == before
  }

  /** What holdSlot's first step comes to. */
  datatype Choice = Held(k: Key, holdId: HoldId) | Chosen(d: DeskId)

  /** A hold of the session for the same time is answered again; otherwise the checks decide. */
  ghost predicate GoodChoice(s: State, store: Store, session: SessionId, q: Request, now: Instant, r: Result<Choice>) {
    var held := SessionHold(store, session, now);
    if held.Some? && held.value.time == q.start then r == Ok(Held(held.value, store.holds[held.value].holdId))
    else match SlotError(s, Listed(store, now), q, now)
      case Some(error) => r == Err(error)
      case None => r.Ok? && r.value.Chosen? && GoodDesk(s, Listed(store, now), q, None, r.value.d)
  }

  class QueueService {
    const db: Database
    const redis: RateLimitService
    const booking: BookingService

    constructor (db: Database, redis: RateLimitService, booking: BookingService)
      ensures this.db == db && this.redis == redis && this.booking == booking
    {
      this.db := db;
      this.redis := redis;
      this.booking := booking;
    }

    /** The booking service works on the same tables and the same Redis. */
    predicate Wired() {
      booking.db == db && booking.redis == redis
    }

    // ----- holds -----

    /** The first step of holdSlot: the hold the session has for this time, or else a free desk. */
    method ChooseDesk(session: SessionId, site: SiteId, country: Country, start: Instant, now: Instant)
      returns (r: Result<Choice>)
      requires Wired()
      modifies redis`index
      ensures redis.View() == old(redis.View()) || redis.View() == Prune(old(redis.View()), now)
      ensures GoodChoice(db.View(), old(redis.View()), session,
              Request(site, country, start, SlotDuration(country), None), now, r)
    {
      ghost var r0, s := redis.View(), db.View();
      var existing := redis.GetSessionHold(session, now);
      if existing.Some? && existing.value.0.time == start { return Ok(Held(existing.value.0, existing.value.1)); }
      var q := Request(site, country, start, SlotDuration(country), None);
      var available := booking.AssertSlotAvailable(q, now);
      if available.Err? { return Err(available.error); }
      PruneAgain(r0, now);
      var desk := booking.ReserveDesk(q, None, now);
      if desk.Err? {
        assert false; // the slot has just been found free
      }
      return Ok(Chosen(desk.value));
    }

    /** The second step: the choice may be out of date by now. */
    method TakeHold(session: SessionId, k: Key, holdId: HoldId, ttl: int, now: Instant) returns (r: Result<()>)
      modifies redis
      ensures (redis.View(), r.Ok?) == Holds.HoldSlot(old(redis.View()), session, k, holdId, ttl, now)
      ensures r.Err? ==> r.error == Conflict
    {
      var held := redis.HoldSlot(session, k, holdId, ttl, now);
      if !held { return Err(Conflict); }
      return Ok(());
    }

    method RefreshHold(session: SessionId, holdId: HoldId, now: Instant) returns (r: Result<Key>)
      modifies redis
      ensures (redis.View(), r.Ok?) == Holds.RefreshHold(old(redis.View()), session, holdId, now)
      ensures r.Ok? ==> Some(r.value) == Holds.PeekHold(old(redis.View()), session, holdId, now)
      ensures r.Ok? ==> Some(r.value) == Holds.PeekHold(redis.View(), session, holdId, now)
      ensures r.Err? ==> r.error == Conflict
    {
      var refreshed := redis.RefreshHold(session, holdId, now);
      if !refreshed { return Err(Conflict); }
      var peeked := redis.PeekHold(session, holdId, now);
      if peeked.None? {
        assert false; // the hold has just been refreshed
      }
      return Ok(peeked.value);
    }

    // ----- appointments -----

    /** assertPhoneSlotFree. */
    method PhoneSlotFree(phone: string, start: Instant) returns (free: bool)
      ensures free <==> !PhoneTaken(db.View(), phone, start)
    {
      ghost var s := db.View();
      var duplicates := set t | t in db.tickets && db.tickets[t].phone == phone
                                && db.tickets[t].scheduledAt == Some(start)
                                && !Terminal(db.tickets[t].status);
      free := duplicates == {};
      assert forall t :: t in duplicates <==>
        t in s.tickets && s.tickets[t].phone == phone && s.tickets[t].scheduledAt == Some(start)
        && !Terminal(s.tickets[t].status);
    }

    /** The database's unique index on desk and start lets the row in. */
    method IndexAdmits(d: DeskId, start: Instant, except: Option<TicketId>) returns (admits: bool)
      ensures admits <==> !PairTaken(db.View(), d, start, except)
    {
      ghost var s := db.View();
      var same := set t | t in db.tickets && TakesPair(db.View(), d, start, except, t);
      assert forall t :: TakesPair(s, d, start, except, t) ==> t in same;
      admits := same == {};
    }

    /**
     * The checks made under the site's lock, and the new ticket. `d` is the desk reserveDesk answers, `duplicate` what
     * the caller throws when the index refuses the row.
     */
    method PlaceTicket(f: Form, phone: string, preferred: Option<DeskId>, now: Instant, duplicate: Error)
      returns (r: Result<()>, ghost d: DeskId)
      requires Wired()
      modifies db, redis`index
      ensures redis.View() == old(redis.View()) || redis.View() == Prune(old(redis.View()), now)
      ensures var listed := Listed(old(redis.View()), now);
              && (r.Ok? ==> GoodBooking(old(db.View()), listed, f, preferred, now, d))
              && Settled(old(db.View()), db.View(), r, Book(old(db.View()), listed, f, phone, now, d, duplicate))
    {
      d := 0;
      ghost var r0 := redis.View();
      var q := RequestOf(f);
      var available := booking.AssertSlotAvailable(q, now);
      if available.Err? { return Err(available.error), 0; }
      var free := PhoneSlotFree(phone, f.start);
      if !free { return Err(Conflict), 0; }
      PruneAgain(r0, now);
      var desk := booking.ReserveDesk(q, preferred, now);
      if desk.Err? {
        assert false; // the slot has just been found free
      }
      d := desk.value;
      var admitted := IndexAdmits(desk.value, f.start, None);
      if !admitted { return Err(duplicate), d; }
      db.tickets := db.tickets[db.nextTicket := NewTicket(q, f.service, phone, desk.value, now)];
      db.nextTicket := db.nextTicket + 1;
      return Ok(()), d;
    }

    /** The hold is consumed even if the booking is refused. */
    method CreateTicket(f: Form, session: SessionId, holdId: HoldId, now: Instant)
      returns (r: Result<()>, ghost d: DeskId)
      requires Wired()
      modifies db, redis
      ensures var s, store := old(db.View()), old(redis.View());
              var (after, outcome) := Appointments.CreateTicket(s, store, f, session, holdId, now, d);
              && (redis.View() == after || redis.View() == Prune(after, now))
              && Settled(old(db.View()), db.View(), r, outcome)
              && (r.Ok? ==> var (k, held) := AfterConsume(old(redis.View()), session, holdId, f.start, now).value;
                            GoodBooking(old(db.View()), Listed(held, now), f, Some(k.desk), now, d))
    {
      d := 0;
      if f.person.None? { return Err(BadRequest), 0; }
      if f.site !in db.place.sites || f.service !in db.place.services || db.place.services[f.service] != f.site {
        return Err(NotFound), 0;
      }
      var hold := redis.PeekHold(session, holdId, now);
      if hold.None? || hold.value.time != f.start { return Err(Conflict), 0; }
      var consumed := redis.ConsumeHold(session, holdId, hold.value, now);
      if !consumed {
        assert false; // the hold has just been seen
      }
      r, d := PlaceTicket(f, f.person.value, Some(hold.value.desk), now, Conflict);
    }

    method CreateWalkInTicket(f: Form, now: Instant) returns (r: Result<()>, ghost d: DeskId)
      requires Wired()
      modifies db, redis`index
      ensures redis.View() == old(redis.View()) || redis.View() == Prune(old(redis.View()), now)
      ensures Settled(old(db.View()), db.View(), r, WalkIn(old(db.View()), old(redis.View()), f, now, d))
      ensures r.Ok? ==> GoodBooking(old(db.View()), Listed(old(redis.View()), now), f, None, now, d)
    {
      d := 0;
      if f.person.None? { return Err(BadRequest), 0; }
      if f.site !in db.place.sites || f.service !in db.place.services || db.place.services[f.service] != f.site {
        return Err(NotFound), 0;
      }
      if DayOf(f.start) != DayOf(now) { return Err(BadRequest), 0; }
      if f.start <= now { return Err(BadRequest), 0; }
      r, d := PlaceTicket(f, f.person.value, None, now, DatabaseError);
    }

    method RescheduleTicket(t: TicketId, start: Instant, now: Instant) returns (r: Result<()>, ghost d: DeskId)
      requires Wired()
      modifies db, redis`index
      ensures redis.View() == old(redis.View()) || redis.View() == Prune(old(redis.View()), now)
      ensures Settled(old(db.View()), db.View(), r, Reschedule(old(db.View()), old(redis.View()), t, start, now, d))
      ensures r.Ok? ==>
                var s, listed := old(db.View()), Listed(old(redis.View()), now);
                GoodDesk(s, listed, MoveRequest(s, t, start), None, d)
    {
      d := 0;
      ghost var r0 := redis.View();
      if t !in db.tickets { return Err(NotFound), 0; }
      var ticket := db.tickets[t];
      if ticket.scheduledAt.None? || ticket.country.None? { return Err(BadRequest), 0; }
      if Terminal(ticket.status) { return Err(Conflict), 0; }
      var q := Request(ticket.site, ticket.country.value, start, ticket.duration, Some(t));
      var available := booking.AssertSlotAvailable(q, now);
      if available.Err? { return Err(available.error), 0; }
      PruneAgain(r0, now);
      var desk := booking.ReserveDesk(q, None, now);
      if desk.Err? {
        assert false; // the slot has just been found free
      }
      d := desk.value;
      var admitted := IndexAdmits(desk.value, start, Some(t));
      if !admitted { return Err(DatabaseError), d; }
      db.tickets := db.tickets[t := ticket.(scheduledAt := Some(start), reservedDesk := Some(desk.value))];
      return Ok(()), d;
    }

    // ----- handing out tickets -----

    /** ORDER BY the dispatch order, LIMIT 1. */
    method FirstByOrder(pool: set<TicketId>) returns (t: TicketId)
      requires pool != {} && forall u | u in pool :: u in db.tickets
      ensures t in pool && forall u | u in pool :: !Before(db.tickets[u], db.tickets[t])
    {
      var rows := db.tickets;
      ghost var first := Minimal(pool, (x, y) => x in rows && y in rows && Before(rows[x], rows[y]));
      t :| t in pool && forall u | u in pool :: !Before(rows[u], rows[t]);
    }

    /** Save a new assignment with its ticket and its employee. */
    method SaveAssignment(t: TicketId, e: EmployeeId, status: TicketStatus, calledAt: Option<Instant>)
      requires t in db.tickets && e in db.employees
      modifies db
      ensures db.View() == Open(old(db.View()), t, e, status, calledAt)
    {
      var a := db.nextAssignment;
      db.tickets := db.tickets[t := db.tickets[t].(status := status)];
      db.assignments := db.assignments[a := Assignment(t, e, db.employees[e].desk, true, calledAt, None, None)];
      db.employees := db.employees[e := db.employees[e].(status := Reserved)];
      db.nextAssignment := a + 1;
    }

    /** The query of assignNext: a first ticket of the employee's own desk, or else a first one of all. */
    method NextTicket(e: EmployeeId) returns (r: Option<TicketId>)
      requires e in db.employees
      ensures r.None? ==> forall t :: !Eligible(db.View(), e, t)
      ensures r.Some? ==> FirstInOrder(db.View(), e, r.value)
    {
      ghost var s := db.View();
      var pool := set t | t in db.tickets && EligibleOwn(db.View(), e, t);
      assert forall u | EligibleOwn(s, e, u) :: u in pool;
      if pool == {} {
        pool := set t | t in db.tickets && Eligible(db.View(), e, t);
        assert forall u | Eligible(s, e, u) :: u in pool;
      }
      if pool == {} { return None; }
      var t := FirstByOrder(pool);
      return Some(t);
    }

    /** `desk` is the employee's desk as the caller loaded it: nothing when the relation was not loaded. */
    method AssignNext(e: EmployeeId, desk: Option<DeskId>)
      returns (r: Option<AssignmentId>, ghost pick: Option<TicketId>)
      requires Safe(db.View()) && e in db.employees && (desk.Some? ==> desk == db.employees[e].desk)
      modifies db
      ensures db.View() == Dispatch.AssignNext(old(db.View()), e, pick)
      ensures if desk.Some? then GoodPick(old(db.View()), e, pick) else pick == None
      ensures r == AssignmentOf(db.View(), e)
    {
      pick := None;
      r := db.ActiveOfEmployee(e);
      if r.Some? { return; }
      var country := WorkCountry(db.View(), db.employees[e]);
      if country.None? || desk.None? { return; }
      // The employee has no assignment, so one at its desk is somebody else's.
      var deskBusy := db.ActiveAtDesk(desk.value);
      if deskBusy.Some? { return; }
      var ticket := NextTicket(e);
      if ticket.None? { return; }
      pick := ticket;
      AssignNextKeeps(db.View(), e, pick);
      r := Some(db.nextAssignment);
      SaveAssignment(ticket.value, e, Assigned, None);
      assert ActiveBy(db.View(), r.value, e);
    }

    /** The first employee in the list at the ticket's desk and for its country, or else the first at its site. */
    method FirstMatch(t: TicketId, order: seq<EmployeeId>) returns (found: Option<EmployeeId>)
      requires t in db.tickets
      ensures Matches(db.View(), db.tickets[t], order, found)
    {
      var ticket := db.tickets[t];
      for i := 0 to |order|
        invariant NoneAtItsDesk(db.View(), ticket, order[..i])
      {
        DeskAndSite(db.View(), ticket, order[i]);
        if order[i] in db.employees {
          var employee := db.employees[order[i]];
          if employee.desk == ticket.reservedDesk && WorkCountry(db.View(), employee) == ticket.country {
            return Some(order[i]);
          }
        }
      }
      assert order[..|order|] == order;
      for i := 0 to |order|
        invariant NoneAtItsSite(db.View(), ticket, order[..i])
      {
        DeskAndSite(db.View(), ticket, order[i]);
        if order[i] in db.employees {
          var employee := db.employees[order[i]];
          if employee.site == Some(ticket.site) && employee.desk.Some?
             && WorkCountry(db.View(), employee) == ticket.country {
            return Some(order[i]);
          }
        }
      }
      return None;
    }

    /** `order` is the answer to the query for available employees, longest idle first. */
    method AssignSpecificTicket(t: TicketId, order: seq<EmployeeId>)
      requires Safe(db.View()) && t in db.tickets && AvailableInOrder(db.View(), order)
      requires Live(db.tickets[t].status)
      modifies db
      ensures db.View() == AssignSpecific(old(db.View()), t, order)
    {
      var found := FirstMatch(t, order);
      MatchesOne(db.View(), db.tickets[t], order, found);
      if found.None? || db.employees[found.value].desk.None? { return; }
      var deskBusy := db.ActiveAtDesk(db.employees[found.value].desk.value);
      if deskBusy.Some? { return; }
      SaveAssignment(t, found.value, Assigned, None);
    }

    // ----- what clients and the clock do -----

    /** `order` is the answer to assignSpecificTicket's query, which comes after the ticket is saved. */
    method CheckInByHash(t: TicketId, now: Instant, order: seq<EmployeeId>) returns (r: Result<()>)
      requires Safe(db.View())
      requires forall e :: e in order <==> e in db.employees && db.employees[e].status == Available
      modifies db
      ensures Settled(old(db.View()), db.View(), r, CheckIn(old(db.View()), t, now, order))
    {
      if t !in db.tickets { return Err(NotFound); }
      var ticket := db.tickets[t];
      if !CanCheckIn(ticket.status, ticket.scheduledAt, ticket.duration, now) { return Err(BadRequest); }
      NotServedUnassigned(db.View(), t);
      SetTicketSafe(db.View(), t, ticket.(status := CheckedIn, priority := 1, checkedInAt := Some(now)));
      db.tickets := db.tickets[t := ticket.(status := CheckedIn, priority := 1, checkedInAt := Some(now))];
      AssignSpecificTicket(t, order);
      return Ok(());
    }

    method MarkNoShow(t: TicketId, now: Instant) returns (r: Result<()>)
      modifies db
      ensures Settled(old(db.View()), db.View(), r, Dispatch.MarkNoShow(old(db.View()), t, now))
    {
      if t !in db.tickets { return Err(NotFound); }
      var ticket := db.tickets[t];
      if ticket.status != Booked { return Err(Conflict); }
      if !CheckInWindowExpired(ticket.scheduledAt, ticket.duration, now) { return Err(BadRequest); }
      db.tickets := db.tickets[t := ticket.(status := NoShow)];
      return Ok(());
    }

    method CancelTicketByHash(t: TicketId) returns (r: Result<()>)
      requires Safe(db.View())
      modifies db
      ensures Settled(old(db.View()), db.View(), r, Cancel(old(db.View()), t))
    {
      if t !in db.tickets { return Err(NotFound); }
      if !CanCancel(db.tickets[t].status) { return Err(Conflict); }
      var found := db.ActiveOfTicket(t);
      db.tickets := db.tickets[t := db.tickets[t].(status := Cancelled)];
      if found.Some? {
        var row := db.assignments[found.value];
        db.assignments := db.assignments[found.value := row.(active := false)];
        db.employees := db.employees[row.employee := db.employees[row.employee].(status := Available)];
      }
      return Ok(());
    }

    /** One ticket of the missed-appointment sweep. */
    method MarkMissed(t: TicketId, now: Instant)
      requires Safe(db.View())
      modifies db
      ensures db.View() == RetireOne(old(db.View()), t, now)
    {
      if t !in db.tickets { return; }
      var ticket := db.tickets[t];
      if ticket.scheduledAt.None? || ticket.scheduledAt.value > now - NO_SHOW_GRACE || !AutoNoShow(ticket.status) {
        return;
      }
      var found := db.ActiveOfTicket(t);
      db.tickets := db.tickets[t := ticket.(status := NoShow)];
      if found.Some? {
        var row := db.assignments[found.value];
        db.assignments := db.assignments[found.value := row.(active := false, completedAt := Some(now))];
        db.employees := db.employees[row.employee := db.employees[row.employee].(status := Available)];
        assert db.View() == Close(old(db.View()), found.value, NoShow, Available, Some(now));
      }
    }

    /** `due` is the answer to the sweep's query, which may be out of date when the transaction opens. */
    method MarkMissedAppointments(due: seq<TicketId>, now: Instant)
      requires Safe(db.View())
      modifies db
      ensures db.View() == RetireAll(old(db.View()), due, now)
    {
      for n := 0 to |due|
        invariant db.View() == RetireAll(old(db.View()), due[..n], now) && Safe(db.View())
      {
        assert due[..n + 1][..n] == due[..n];
        RetireAllKeeps(old(db.View()), due[..n + 1], now);
        MarkMissed(due[n], now);
      }
      assert due[..|due|] == due;
    }

    // ----- the manager's status change -----

    /** Save an assignment that closes, with its ticket and its employee, who becomes available. */
    method SaveClosed(a: AssignmentId, status: TicketStatus, now: Instant)
      requires References(db.View()) && IsActive(db.View(), a) && status != Requeued
      modifies db
      ensures db.View() == Close(old(db.View()), a, status, Available, Some(now))
    {
      var row := db.assignments[a];
      db.tickets := db.tickets[row.ticket := db.tickets[row.ticket].(status := status)];
      db.assignments := db.assignments[a := row.(active := false, completedAt := Some(now))];
      db.employees := db.employees[row.employee := db.employees[row.employee].(status := Available)];
    }

    /** The assignment closes with the ticket, and its employee takes the next one. */
    method FinishByHand(a: AssignmentId, status: TicketStatus, now: Instant) returns (ghost pick: Option<TicketId>)
      requires Safe(db.View()) && IsActive(db.View(), a) && status == Completed
      modifies db
      ensures var row := old(db.View()).assignments[a];
              var desk := old(db.View()).employees[row.employee].desk;
              var m := Close(old(db.View()), a, status, Available, Some(now));
              var p := Progress(m, if desk.Some? then Some(row.employee) else None);
              GoodTail(p, pick) && db.View() == Tail(p, pick)
    {
      CloseKeeps(db.View(), a, status, Available, Some(now));
      var row := db.assignments[a];
      SaveClosed(a, status, now);
      pick := None;
      if db.employees[row.employee].desk.Some? {
        var next;
        next, pick := AssignNext(row.employee, db.employees[row.employee].desk);
      }
    }

    /** The change the guards have let through. */
    method ApplyStatus(user: EmployeeId, t: TicketId, status: TicketStatus, assignment: Option<AssignmentId>,
                       now: Instant)
      returns (ghost pick: Option<TicketId>)
      requires Safe(db.View()) && t in db.tickets && status != db.tickets[t].status
      requires ManagerChange(db.View(), user, t, status, now).Ok? && assignment == AssignmentFor(db.View(), t)
      modifies db
      ensures GoodTail(ManagerChange(old(db.View()), user, t, status, now).value, pick)
      ensures db.View() == Tail(ManagerChange(old(db.View()), user, t, status, now).value, pick)
    {
      pick := None;
      var previous := db.tickets[t].status;
      ServedInProgress(db.View(), t);
      if status == CheckedIn || status == Requeued || status == Booked {
        assert false; // would set the check-in time or the priority
      }
      if InProgress(status) {
        if assignment.Some? || status == InService {
          assert false; // would set the call time of an existing assignment, or start the service at once
        }
        SaveAssignment(t, user, status, Some(now));
      }
      if Terminal(status) || status == Booked || status == Requeued
          || (status == CheckedIn && (previous == Called || previous == Assigned)) {
        pick := FinishByHand(assignment.value, status, now);
      }
    }

    /** The guards of setTicketStatus; the ticket's active assignment when they let the change through. */
    method GuardStatusChange(user: EmployeeId, t: TicketId, status: TicketStatus)
      returns (r: Result<Option<AssignmentId>>)
      requires Exclusive(db.View())
      requires t in db.tickets ==> (InProgress(db.tickets[t].status) <==> AssignmentFor(db.View(), t).Some?)
      ensures ManagerRefusal(db.View(), user, t, status) == (if r.Ok? then None else Some(r.error))
      ensures r.Ok? ==> r.value == AssignmentFor(db.View(), t)
    {
      if t !in db.tickets || user !in db.employees { return Err(NotFound); }
      var employee, ticket := db.employees[user], db.tickets[t];
      if employee.site.Some? && ticket.site != employee.site.value { return Err(Forbidden); }
      if !ManagerMayChange(ticket.status, status) { return Err(BadRequest); }
      var assignment := db.ActiveOfTicket(t);
      if assignment.Some? && db.assignments[assignment.value].employee != user
          && (InProgress(ticket.status) || InProgress(status)) {
        return Err(Forbidden);
      }
      if ticket.status != status && InProgress(status) {
        var other := db.ActiveOfEmployee(user);
        if other.Some? && db.assignments[other.value].ticket != t { return Err(BadRequest); }
        assert other.Some? ==> ActiveFor(db.View(), other.value, t);
      }
      return Ok(assignment);
    }

    method SetTicketStatus(user: EmployeeId, t: TicketId, status: TicketStatus, now: Instant)
      returns (r: Result<()>, ghost pick: Option<TicketId>)
      requires Safe(db.View())
      modifies db
      ensures match ManagerChange(old(db.View()), user, t, status, now)
              case Ok(p) => r.Ok? && GoodTail(p, pick) && db.View() == Tail(p, pick)
              case Err(error) => r == Err(error) && db.View() == old(db.View())
    {
      if t in db.tickets { ServedInProgress(db.View(), t); }
      var guard := GuardStatusChange(user, t, status);
      if guard.Err? { return Err(guard.error), None; }
      if db.tickets[t].status == status { return Ok(()), None; }
      pick := ApplyStatus(user, t, status, guard.value, now);
      return Ok(()), pick;
    }

    // ----- what employees do -----

    /** Write down what the action does to the ticket, the assignment and the employee. */
    method SaveAction(a: AssignmentId, action: Action, next: TicketStatus, now: Instant)
      requires References(db.View()) && IsActive(db.View(), a)
      requires var ticket := db.tickets[db.assignments[a].ticket];
               NextTicketStatus(ticket.status, action, ticket.scheduledAt.Some?) == Some(next)
      modifies db
      ensures Act(old(db.View()), old(db.View()).assignments[a].employee, a, action, now) == Ok(db.View())
    {
      var row := db.assignments[a];
      var ticket, employee := db.tickets[row.ticket], db.employees[row.employee];
      ticket := ticket.(status := next);
      if action == Call {
        row := row.(calledAt := Some(now));
        ticket := ticket.(callAttempts := ticket.callAttempts + 1);
      }
      if action == Start {
        row := row.(startedAt := Some(now));
        employee := employee.(status := Busy);
      }
      if action == Complete || action == Requeue || action == MissedCall {
        row := row.(active := false, completedAt := Some(now));
        employee := employee.(status := Available);
      }
      if action == Requeue { ticket := ticket.(status := Requeued, priority := 0); }
      db.tickets := db.tickets[row.ticket := ticket];
      db.assignments := db.assignments[a := row];
      db.employees := db.employees[row.employee := employee];
    }

    /** The employee is loaded without its desk, so the assignNext at the end finds nothing to do. */
    method AssignmentAction(user: EmployeeId, a: AssignmentId, action: Action, now: Instant) returns (r: Result<()>)
      requires Safe(db.View())
      modifies db
      ensures Settled(old(db.View()), db.View(), r, Act(old(db.View()), user, a, action, now))
    {
      if a !in db.assignments || db.assignments[a].employee != user || !db.assignments[a].active {
        return Err(NotFound);
      }
      var ticket := db.tickets[db.assignments[a].ticket];
      var next := NextTicketStatus(ticket.status, action, ticket.scheduledAt.Some?);
      if next.None? { return Err(BadRequest); }
      ActKeeps(db.View(), user, a, action, now);
      SaveAction(a, action, next.value, now);
      if action == Complete || action == Requeue || action == MissedCall {
        var nextAssignment, pick := AssignNext(user, None);
      }
      return Ok(());
    }

    method ReleaseAssignmentForBreak(a: AssignmentId, now: Instant) returns (r: Result<()>)
      requires References(db.View()) && IsActive(db.View(), a)
      requires InProgress(db.tickets[db.assignments[a].ticket].status)
      modifies db
      ensures var s := old(db.View());
              if s.tickets[s.assignments[a].ticket].status == InService then r == Err(Conflict) && db.View() == s
              else
                var status := s.employees[s.assignments[a].employee].status;
                r == Ok(()) && db.View() == Close(s, a, Requeued, status, Some(now))
    {
      var row := db.assignments[a];
      var ticket := db.tickets[row.ticket];
      if BlocksBreak(ticket.status) { return Err(Conflict); }
      if !CanReleaseOnBreak(ticket.status) {
        assert false; // would only deactivate the assignment
      }
      db.tickets := db.tickets[row.ticket := ticket.(status := Requeued, priority := 0)];
      db.assignments := db.assignments[a := row.(active := false, completedAt := Some(now))];
      ghost var employee := db.employees[row.employee];
      assert db.employees == db.employees[row.employee := employee.(status := employee.status)];
      return Ok(());
    }

    /** Before a desk is left the employee is paused, before a change of direction it goes offline. */
    method ReleaseEmployee(e: EmployeeId, status: EmployeeStatus, now: Instant) returns (r: Result<()>)
      requires Safe(db.View()) && e in db.employees
      modifies db
      ensures Settled(old(db.View()), db.View(), r, Release(old(db.View()), e, status, now))
    {
      var active := db.ActiveOfEmployee(e);
      if active.None? { return Ok(()); }
      ReleasesInTwo(db.View(), e, active.value, status, now);
      r := ReleaseAssignmentForBreak(active.value, now);
      if r.Err? { return; }
      db.employees := db.employees[e := db.employees[e].(status := status)];
    }

    /** The status is saved once nothing stands against it. */
    method SaveEmployeeStatus(user: EmployeeId, status: EmployeeStatus, now: Instant) returns (r: Result<()>)
      requires Safe(db.View()) && user in db.employees && (status == Available ==> db.employees[user].desk.Some?)
      modifies db
      ensures match ChangeEmployeeStatus(old(db.View()), user, status, now)
              case Ok(p) => r.Ok? && db.View() == p.tables
              case Err(error) => r == Err(error) && db.View() == old(db.View())
    {
      var active := db.ActiveOfEmployee(user);
      if active.Some? && (status == Paused || status == Offline) {
        BreakIsRelease(db.View(), user, active.value, status, now);
        r := ReleaseAssignmentForBreak(active.value, now);
        if r.Err? { return; }
      } else if active.Some? && status != Available {
        return Err(Conflict);
      }
      db.employees := db.employees[user := db.employees[user].(status := status)];
      return Ok(());
    }

    method SetEmployeeStatus(user: EmployeeId, status: EmployeeStatus, now: Instant)
      returns (r: Result<()>, ghost pick: Option<TicketId>)
      requires Safe(db.View())
      modifies db
      ensures match ChangeEmployeeStatus(old(db.View()), user, status, now)
              case Ok(p) => r.Ok? && GoodTail(p, pick) && db.View() == Tail(p, pick)
              case Err(error) => r == Err(error) && db.View() == old(db.View())
    {
      pick := None;
      if user !in db.employees { return Err(NotFound), None; }
      if status == Available && db.employees[user].desk.None? { return Err(BadRequest), None; }
      r := SaveEmployeeStatus(user, status, now);
      if r.Err? { return; }
      if status == Available {
        SetEmployeeKeeps(old(db.View()), user, db.employees[user]);
        var next;
        next, pick := AssignNext(user, db.employees[user].desk);
      }
      r := Ok(());
    }

    method DetachEmployeeDesk(e: EmployeeId, now: Instant) returns (r: Result<()>)
      requires Safe(db.View()) && e in db.employees
      modifies db
      ensures Settled(old(db.View()), db.View(), r, Unseat(old(db.View()), e, now))
    {
      r := ReleaseEmployee(e, Paused, now);
      if r.Err? { return; }
      db.employees := db.employees[e := db.employees[e].(desk := None)];
    }

    /** Whoever else sits at the desk leaves it: at most one employee, as no desk seats two. */
    method DetachOthers(d: DeskId, e: EmployeeId, now: Instant) returns (r: Result<()>)
      requires Safe(db.View()) && e in db.employees
      modifies db
      ensures Settled(old(db.View()), db.View(), r, Vacate(old(db.View()), d, e, now))
    {
      ghost var s := db.View();
      var rest: set<EmployeeId> := set f | f in db.employees && db.employees[f].desk == Some(d) && f != e;
      r := Ok(());
      assert forall f :: f in rest <==> SeatedAt(s, f, d) && f != e;
      while rest != {}
        invariant r.Ok?
        invariant forall f | f in rest :: SeatedAt(s, f, d) && f != e
        invariant if rest == {} then Vacate(s, d, e, now) == Ok(db.View()) else db.View() == s
        decreases |rest|
      {
        var f :| f in rest;
        assert SeatedAt(s, f, d) && forall g | g in rest :: g == f;
        r := DetachEmployeeDesk(f, now);
        if r.Err? { return; }
        rest := rest - {f};
      }
    }

    /**
     * The employee's row is loaded without its desk, so whatever it does is released even if it keeps its desk.
     */
    method AssignEmployeeDesk(e: EmployeeId, desk: Option<DeskId>, now: Instant) returns (r: Result<()>)
      requires Safe(db.View())
      modifies db
      ensures Settled(old(db.View()), db.View(), r, SetDesk(old(db.View()), e, desk, now))
    {
      if e !in db.employees { return Err(NotFound); }
      if desk.None? {
        r := DetachEmployeeDesk(e, now);
        return;
      }
      var d := desk.value;
      if d !in db.place.desks || !db.place.desks[d].active { return Err(NotFound); }
      var row := db.place.desks[d];
      if db.employees[e].country.Some? && db.employees[e].country.value != row.country { return Err(BadRequest); }
      var before := db.View();
      r := DetachOthers(d, e, now);
      if r.Err? { return; }
      VacateKeeps(before, d, e, now);
      VacateTouches(before, d, e, now);
      r := ReleaseEmployee(e, Paused, now);
      if r.Err? {
        db.Restore(before);
        return;
      }
      var assignee := db.employees[e];
      var site := if assignee.site.Some? then assignee.site else Some(row.site);
      db.employees := db.employees[e := assignee.(desk := Some(d), country := Some(row.country),
                                                  site := site)];
    }

    method UpdateEmployeeCountry(e: EmployeeId, country: Country, now: Instant) returns (r: Result<()>)
      requires Safe(db.View())
      modifies db
      ensures Settled(old(db.View()), db.View(), r, SetCountry(old(db.View()), e, country, now))
    {
      if e !in db.employees { return Err(NotFound); }
      if db.employees[e].role == Admin { return Err(BadRequest); }
      if db.employees[e].country == Some(country) { return Ok(()); }
      var desk := db.employees[e].desk;
      if desk.Some? && desk.value in db.place.desks && db.place.desks[desk.value].country != country {
        r := ReleaseEmployee(e, Offline, now);
        if r.Err? { return; }
        db.employees := db.employees[e := db.employees[e].(desk := None)];
      }
      db.employees := db.employees[e := db.employees[e].(country := Some(country))];
      return Ok(());
    }

    // ----- employees and desks -----

    /** `first` is the answer to the query for the first active site. */
    method EnsureEmployee(e: EmployeeId, role: Role, first: Option<SiteId>) returns (r: Result<()>)
      modifies db
      ensures Settled(old(db.View()), db.View(), r, Office.EnsureEmployee(old(db.View()), e, role, first))
    {
      if e in db.employees {
        if db.employees[e].site.None? && first.Some? {
          db.employees := db.employees[e := db.employees[e].(site := first)];
        }
        return Ok(());
      }
      if first.None? { return Err(NotFound); }
      db.employees := db.employees[e := Employee(role, Offline, first, None, None, [])];
      return Ok(());
    }

    method CreateDesk(rank: nat, site: SiteId, country: Country) returns (r: Result<()>)
      modifies db
      ensures Settled(old(db.View()), db.View(), r, Office.CreateDesk(old(db.View()), rank, site, country))
    {
      if site !in db.place.sites { return Err(NotFound); }
      db.place := db.place.(desks := db.place.desks[db.place.nextDesk := Desk(rank, country, true, site)],
                            nextDesk := db.place.nextDesk + 1);
      return Ok(());
    }

    method UpdateDesk(d: DeskId, patch: DeskPatch) returns (r: Result<()>)
      modifies db
      ensures Settled(old(db.View()), db.View(), r, Office.UpdateDesk(old(db.View()), d, patch))
    {
      if d !in db.place.desks { return Err(NotFound); }
      var desk := db.place.desks[d];
      if patch.rank.Some? { desk := desk.(rank := patch.rank.value); }
      if patch.active.Some? { desk := desk.(active := patch.active.value); }
      if patch.country.Some? { desk := desk.(country := patch.country.value); }
      db.place := db.place.(desks := db.place.desks[d := desk]);
      return Ok(());
    }

    /** Does an employee at the desk serve somebody? */
    method DeskServes(d: DeskId) returns (serves: bool)
      requires Exclusive(db.View())
      ensures serves <==>
              exists e :: e in db.employees && db.employees[e].desk == Some(d)
                          && !Idle(db.View(), e) && Engaged(db.employees[e].status)
    {
      var rest: set<EmployeeId> := set e | e in db.employees && db.employees[e].desk == Some(d);
      while rest != {}
        invariant forall e | e in rest :: e in db.employees && db.employees[e].desk == Some(d)
        invariant forall e | e in db.employees && db.employees[e].desk == Some(d) && e !in rest ::
                    Idle(db.View(), e) || !Engaged(db.employees[e].status)
        decreases |rest|
      {
        var e :| e in rest;
        var active := db.ActiveOfEmployee(e);
        if active.Some? && Engaged(db.employees[e].status) { return true; }
        rest := rest - {e};
      }
      return false;
    }

    method DeleteDesk(d: DeskId) returns (r: Result<()>)
      requires Exclusive(db.View())
      modifies db
      ensures Settled(old(db.View()), db.View(), r, Office.DeleteDesk(old(db.View()), d))
    {
      if d !in db.place.desks { return Err(NotFound); }
      var before := db.View();
      var serves := DeskServes(d);
      if serves { return Err(Conflict); }
      db.employees := map e | e in db.employees :: WithoutDesk(db.employees[e], d);
      if HasHistory(before, d) {
        db.place := db.place.(desks := db.place.desks[d := db.place.desks[d].(active := false)]);
      } else if DeskBooked(before, d) {
        db.Restore(before);
        return Err(DatabaseError);
      } else {
        db.place := db.place.(desks := db.place.desks - {d});
      }
      return Ok(());
    }

    // ----- the timers -----

    /** Would release the assignments of employees on a break; there never are any. */
    method RecoverBreakAssignments() returns (count: nat)
      requires Safe(db.View())
      ensures count == 0
    {
      var stale := set a | a in db.assignments && db.assignments[a].active
                           && (db.employees[db.assignments[a].employee].status == Paused
                               || db.employees[db.assignments[a].employee].status == Offline)
                           && CanReleaseOnBreak(db.tickets[db.assignments[a].ticket].status);
      if a :| a in stale {
        assert IsActive(db.View(), a);
        assert false; // would release the assignment for the break
      }
      return |stale|;
    }

    /** One round of the employee loop; `loaded` is what the query saw before the loop. */
    method DispatchEmployee(e: EmployeeId, loaded: State) returns (ghost pick: Option<TicketId>)
      requires Safe(db.View()) && SameSeats(loaded, db.View()) && e in db.employees
      modifies db
      ensures GoodDispatch(old(db.View()), e, pick) && db.View() == Dispatch.AssignNext(old(db.View()), e, pick)
    {
      pick := None;
      var row := loaded.employees[e];
      if WorkCountry(loaded, row).None? || row.desk.None? { return; }
      if db.employees[e].status == Available {
        var next;
        next, pick := AssignNext(e, db.employees[e].desk);
      }
    }

    /** The employee loop of the sweep. */
    method DispatchEmployees(employees: seq<EmployeeId>) returns (ghost picks: seq<Option<TicketId>>)
      requires Safe(db.View()) && forall e | e in employees :: e in db.employees
      modifies db
      ensures Dispatched(old(db.View()), employees, picks, db.View())
    {
      var loaded := db.View();
      picks := [];
      for n := 0 to |employees|
        invariant Dispatched(loaded, employees[..n], picks, db.View())
        invariant Safe(db.View()) && SameSeats(loaded, db.View())
      {
        ghost var m := db.View();
        ghost var pick := DispatchEmployee(employees[n], loaded);
        DispatchedOneMore(loaded, employees[..n], picks, m, employees[n], pick);
        assert employees[..n + 1] == employees[..n] + [employees[n]];
        picks := picks + [pick];
      }
      assert employees[..|employees|] == employees;
    }

    /** One unanswered call. */
    method ExpireCall(a: AssignmentId)
      requires Safe(db.View())
      modifies db
      ensures db.View() == Dispatch.ExpireCall(old(db.View()), a)
    {
      if a !in db.assignments || !db.assignments[a].active { return; }
      var row := db.assignments[a];
      var ticket := db.tickets[row.ticket];
      if ticket.status != Called { return; }
      db.assignments := db.assignments[a := row.(active := false)];
      db.tickets := db.tickets[row.ticket :=
        if ticket.callAttempts >= 2 then ticket.(status := NoShow) else ticket.(status := Requeued, priority := 0)];
      db.employees := db.employees[row.employee := db.employees[row.employee].(status := Available)];
    }

    /** `calls` is the answer to the query for calls unanswered for 90 seconds. */
    method ExpireCalls(calls: seq<AssignmentId>) returns (count: nat)
      requires Safe(db.View())
      modifies db
      ensures db.View() == ExpireAll(old(db.View()), calls) && count == |calls|
    {
      for n := 0 to |calls|
        invariant db.View() == ExpireAll(old(db.View()), calls[..n]) && Safe(db.View())
      {
        assert calls[..n + 1][..n] == calls[..n];
        ExpireAllKeeps(old(db.View()), calls[..n + 1]);
        ExpireCall(calls[n]);
      }
      assert calls[..|calls|] == calls;
      return |calls|;
    }

    /** `employees` and `calls` are the answers to the queries; `m` are the tables when the employee loop ends. */
    method DispatchAvailable(employees: seq<EmployeeId>, calls: seq<AssignmentId>) returns (ghost m: State)
      requires Safe(db.View()) && GoodEmployees(db.View(), employees)
      modifies db
      ensures exists picks :: Dispatched(old(db.View()), employees, picks, m)
      ensures |Ready(old(db.View()))| <= SWEEP_LIMIT ==> forall e :: !Starved(m, e)
      ensures db.View() == ExpireAll(m, calls)
    {
      ghost var s := db.View();
      var recovered := RecoverBreakAssignments();
      assert forall e | e in employees :: e in Ids(employees);
      ghost var picks := DispatchEmployees(employees);
      m := db.View();
      DispatchAllKeeps(s, employees, picks);
      if |Ready(s)| <= SWEEP_LIMIT {
        forall f | f in s.employees && s.employees[f].status == Available ensures f in employees {
          AllListed(s, employees, f);
        }
        forall e ensures !Starved(m, e) { WorkConserved(s, employees, picks, e); }
      }
      var count := ExpireCalls(calls);
    }

    // ----- the place in line -----

    method GetQueueMeta(t: TicketId) returns (position: nat, wait: nat)
      requires t in db.tickets
      ensures position == Position(db.View(), t) && wait == 4 * position
    {
      if !Live(db.tickets[t].status) { return 0, 0; }
      var ahead := set p | p in db.tickets && IsAhead(db.View(), t, p);
      assert ahead == Ahead(db.View(), t);
      position := |ahead| + 1;
      wait := Max(1, 4 * position);
    }
  }

  function Max(x: nat, y: nat): nat {
    if x > y then x else y
  }

  /** The employee loop may end with these tables. */
  ghost predicate Dispatched(s: State, employees: seq<EmployeeId>, picks: seq<Option<TicketId>>, m: State) {
    |picks| == |employees| && GoodPicks(s, employees, picks) && m == DispatchAll(s, employees, picks)
  }

  lemma DispatchedOneMore(s: State, employees: seq<EmployeeId>, picks: seq<Option<TicketId>>, m: State, e: EmployeeId,
                          pick: Option<TicketId>)
    requires Dispatched(s, employees, picks, m) && Safe(m) && SameSeats(s, m) && GoodDispatch(m, e, pick)
    ensures var s' := Dispatch.AssignNext(m, e, pick);
            Dispatched(s, employees + [e], picks + [pick], s') && Safe(s') && SameSeats(s, s')
  {
    DispatchKeeps(m, e, pick);
    AssignNextSeats(m, e, pick);
    DispatchOneMore(s, employees, picks, e, pick);
  }

  ghost predicate SameSeats(s: State, m: State) {
    m.place == s.place && m.employees.Keys == s.employees.Keys
    && forall e | e in s.employees ::
        m.employees[e].desk == s.employees[e].desk && m.employees[e].country == s.employees[e].country
  }

  lemma AssignNextSeats(s: State, e: EmployeeId, pick: Option<TicketId>)
    ensures SameSeats(s, Dispatch.AssignNext(s, e, pick))
  {
  }

  /** Giving the ticket back and then saving the status is what the step does at once. */
  lemma ReleasesInTwo(s: State, e: EmployeeId, a: AssignmentId, status: EmployeeStatus, now: Instant)
    requires Safe(s) && AssignmentOf(s, e) == Some(a)
    ensures InProgress(s.tickets[s.assignments[a].ticket].status) && e in s.employees && s.assignments[a].employee == e
    ensures Release(s, e, status, now) ==
            if s.tickets[s.assignments[a].ticket].status == InService then Err(Conflict)
            else
              var m := Close(s, a, Requeued, s.employees[e].status, Some(now));
              Ok(SetEmployee(m, e, m.employees[e].(status := status)))
  {
    assert Fits(s.assignments[a], s.tickets[s.assignments[a].ticket], s.employees[e]);
    var m := Close(s, a, Requeued, s.employees[e].status, Some(now));
    assert SetEmployee(m, e, m.employees[e].(status := status)) == Close(s, a, Requeued, status, Some(now));
  }

  lemma BreakIsRelease(s: State, user: EmployeeId, a: AssignmentId, status: EmployeeStatus, now: Instant)
    requires Safe(s) && AssignmentOf(s, user) == Some(a) && (status == Paused || status == Offline)
    ensures InProgress(s.tickets[s.assignments[a].ticket].status) && user in s.employees
    ensures s.assignments[a].employee == user
    ensures ChangeEmployeeStatus(s, user, status, now) ==
            if s.tickets[s.assignments[a].ticket].status == InService then Err(Conflict)
            else
              var m := Close(s, a, Requeued, s.employees[user].status, Some(now));
              Ok(Progress(SetEmployee(m, user, m.employees[user].(status := status)), None))
  {
    ReleasesInTwo(s, user, a, status, now);
    var m' := Close(s, a, Requeued, status, Some(now));
    assert SetEmployee(m', user, m'.employees[user].(status := status)) == m';
  }

  /** A ticket has an active assignment exactly when it is in progress. */
  lemma ServedInProgress(s: State, t: TicketId)
    requires Safe(s) && t in s.tickets
    ensures InProgress(s.tickets[t].status) <==> AssignmentFor(s, t).Some?
  {
    if !InProgress(s.tickets[t].status) { NotServedUnassigned(s, t); }
  }
}
