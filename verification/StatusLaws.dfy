/** The life of a ticket: which transaction leads to which status and from where, and what each request achieves. */
module StatusLaws {
  import opened Domain
  import opened QueueRules
  import opened Tables
  import opened Dispatch
  import opened Sweeps
  import opened DispatchLaws
  import opened SeatLaws
  import opened Runs

  // ----- where a status comes from -----

  /** The transactions that bring the ticket from its status to this one. */
  predicate Origin(q: DispatchStep, t: TicketId, was: TicketStatus, status: TicketStatus) {
    match status
    case Booked => false
    case Waiting => false
    case CheckedIn => was == Booked && q.ChecksIn? && q.t == t
    case Assigned =>
      || (was == Booked && q.ChecksIn? && q.t == t)
      || (was in {CheckedIn, Requeued}
          && (q.Dispatches? || (q.Turns? && q.turned == Available)
              || (q.ManagerSets? && q.t != t && q.status == Completed)))
    case Called =>
      || (was == Assigned && q.Acts? && q.action == Call)
      || (!UnderWay(was) && !Over(was) && q.ManagerSets? && q.t == t && q.status == Called)
    case InService => was in {Assigned, Called} && q.Acts? && q.action == Start
    case Completed =>
      || (was == InService && q.Acts? && q.action == Complete)
      || (UnderWay(was) && q.ManagerSets? && q.t == t && q.status == Completed)
    case Requeued =>
      || (was in {Assigned, Called}
          && ((q.Acts? && q.action == Requeue) || (q.Turns? && q.turned != Available) || q.Seats? || q.Redirects?))
      || (was == Called && q.CallsExpire?)
    case NoShow =>
      || (was == Booked && q.MissesBooking? && q.t == t)
      || (was == Called && ((q.Acts? && q.action == MissedCall) || q.CallsExpire?))
      || (!Over(was) && was != Called && was != InService && q.SweepsMissed? && t in q.due)
    case Cancelled => !Over(was) && was != InService && q.Cancels? && q.t == t
  }

  // The ticket keeps its status or has it from the transaction.
  predicate Traced(q: DispatchStep, s: State, s': State, t: TicketId) {
    && t in s.tickets && t in s'.tickets
    && (s'.tickets[t].status == s.tickets[t].status || Origin(q, t, s.tickets[t].status, s'.tickets[t].status))
  }

  lemma LeavesTraced(q: DispatchStep, s: State, s': State, u: TicketId, status: TicketStatus, at: Option<Instant>,
                     t: TicketId)
    requires Leaves(s, s', u, status, at) && t in s.tickets
    requires Origin(q, u, s.tickets[u].status, status)
    ensures Traced(q, s, s', t)
  {
  }

  lemma GivenBackTraced(q: DispatchStep, s: State, s': State, who: set<EmployeeId>, now: Instant, t: TicketId)
    requires Safe(s) && t in s.tickets && GivesBack(s, s', who, now)
    requires forall e | e in who :: !ServesSomebody(s, e)
    requires (q.Turns? && q.turned != Available) || q.Seats? || q.Redirects?
    ensures Traced(q, s, s', t)
  {
    if TakenFrom(s, t, who) {
      var a :| Takes(s, a, t, who);
      var e := s.assignments[a].employee;
      assert WorksOn(s, a, e) && IsActive(s, a);
      assert Fits(s.assignments[a], s.tickets[t], s.employees[e]);
    }
  }

  lemma TakenTraced(q: DispatchStep, s: State, e: EmployeeId, pick: Option<TicketId>, t: TicketId)
    requires References(s) && t in s.tickets && GoodPick(s, e, pick)
    requires q.Dispatches? || (q.Turns? && q.turned == Available)
    ensures Traced(q, s, AssignNext(s, e, pick), t)
  {
    TakesNext(s, e, pick);
    TakesWhen(s, e, pick);
  }

  lemma CheckInTraced(q: DispatchStep, s: State, now: Instant, t: TicketId)
    requires Safe(s) && q.ChecksIn? && CheckIn(s, q.t, now, q.order).Ok? && t in s.tickets
    ensures Traced(q, s, CheckIn(s, q.t, now, q.order).value, t)
    ensures var row := CheckIn(s, q.t, now, q.order).value.tickets[q.t];
            row.status in {CheckedIn, Assigned} && row.checkedInAt == Some(now)
  {
    var m := Arrived(s, q.t, now);
    ChecksInWhen(s, q.t, now, q.order);
    MatchesFor(m, m.tickets[q.t], q.order);
    ChecksInSo(s, q.t, now, q.order, MatchFor(m, m.tickets[q.t], q.order));
  }

  lemma CompletionTraced(q: DispatchStep, s: State, m: State, s': State, a: AssignmentId, e: EmployeeId,
                         now: Instant, t: TicketId)
    requires q.ManagerSets? && q.status == Completed && q.t in s.tickets && UnderWay(s.tickets[q.t].status)
    requires a in s.assignments && s.assignments[a].ticket == q.t && t in s.tickets
    requires Closes(s, m, a, s.tickets[q.t].(status := Completed), Available, Some(now))
    requires match q.pick
             case Some(u) => Suits(m, e, u) && HandedOut(m, s', u, e, Assigned, None)
             case None => s' == m
    ensures Traced(q, s, s', t) && s'.tickets[q.t].status == Completed
  {
  }

  lemma ManagerTraced(q: DispatchStep, s: State, now: Instant, t: TicketId)
    requires Safe(s) && q.ManagerSets? && ManagerChange(s, q.user, q.t, q.status, now).Ok? && t in s.tickets
    requires GoodTail(ManagerChange(s, q.user, q.t, q.status, now).value, q.pick)
    ensures Traced(q, s, Tail(ManagerChange(s, q.user, q.t, q.status, now).value, q.pick), t)
    ensures Tail(ManagerChange(s, q.user, q.t, q.status, now).value, q.pick).tickets[q.t].status == q.status
  {
    var p := ManagerChange(s, q.user, q.t, q.status, now).value;
    ManagerMayExactly(s, q.user, q.t, q.status, now);
    ManagerChanges(s, q.user, q.t, q.status, now);
    if s.tickets[q.t].status != q.status && q.status != Called {
      var a: AssignmentId :| ServedByUser(s, q.user, q.t, a)
        && Closes(s, p.tables, a, s.tickets[q.t].(status := Completed), Available, Some(now));
      if p.dispatch.Some? { NextAfterCompletion(s, q.user, q.t, q.status, now, q.pick); }
      CompletionTraced(q, s, p.tables, Tail(p, q.pick), a, q.user, now, t);
    }
  }

  lemma NextAfterCompletion(s: State, user: EmployeeId, t: TicketId, status: TicketStatus, now: Instant,
                            pick: Option<TicketId>)
    requires Safe(s) && ManagerChange(s, user, t, status, now).Ok? && s.tickets[t].status != status && status != Called
    requires var p := ManagerChange(s, user, t, status, now).value; p.dispatch.Some? && GoodTail(p, pick)
    ensures var p := ManagerChange(s, user, t, status, now).value;
            match pick
            case Some(u) => Suits(p.tables, user, u) && HandedOut(p.tables, Tail(p, pick), u, user, Assigned, None)
            case None => Tail(p, pick) == p.tables
  {
    var p := ManagerChange(s, user, t, status, now).value;
    assert References(p.tables) by { ManagerChangeTables(s, user, t, status, now); }
    assert p.dispatch == Some(user) by { ManagerChanges(s, user, t, status, now); }
    TakesNext(p.tables, user, pick);
    TakesWhen(p.tables, user, pick);
  }

  lemma TurnTraced(q: DispatchStep, s: State, now: Instant, t: TicketId)
    requires Safe(s) && q.Turns? && q.turned in {Available, Paused, Offline} && t in s.tickets
    requires ChangeEmployeeStatus(s, q.user, q.turned, now).Ok?
    requires GoodTail(ChangeEmployeeStatus(s, q.user, q.turned, now).value, q.pick)
    ensures Traced(q, s, Tail(ChangeEmployeeStatus(s, q.user, q.turned, now).value, q.pick), t)
  {
    var p := ChangeEmployeeStatus(s, q.user, q.turned, now).value;
    TurnsWhen(s, q.user, q.turned, now);
    TurnsSo(s, q.user, q.turned, now);
    if q.turned == Available {
      ChangeEmployeeStatusTables(s, q.user, q.turned, now);
      TakenTraced(q, p.tables, q.user, q.pick, t);
    } else {
      GivenBackTraced(q, s, p.tables, {q.user}, now, t);
    }
  }

  lemma SeatTraced(q: DispatchStep, s: State, now: Instant, t: TicketId)
    requires Safe(s) && q.Seats? && SetDesk(s, q.e, q.desk, now).Ok? && t in s.tickets
    ensures Traced(q, s, SetDesk(s, q.e, q.desk, now).value, t)
  {
    var s' := SetDesk(s, q.e, q.desk, now).value;
    match q.desk
    case None =>
      LeavesDesk(s, q.e, now);
      GivenBackTraced(q, s, s', {q.e}, now, t);
    case Some(d) =>
      SeatsWhen(s, q.e, d, now);
      GivenBackTraced(q, s, s', Displaced(s, d, q.e) + {q.e}, now, t);
  }

  lemma RedirectTraced(q: DispatchStep, s: State, now: Instant, t: TicketId)
    requires Safe(s) && q.Redirects? && SetCountry(s, q.e, q.country, now).Ok? && t in s.tickets
    ensures Traced(q, s, SetCountry(s, q.e, q.country, now).value, t)
  {
    RedirectsSo(s, q.e, q.country, now);
    if s.employees[q.e].country != Some(q.country) && SitsAbroad(s, q.e, q.country) {
      GivenBackTraced(q, s, SetCountry(s, q.e, q.country, now).value, {q.e}, now, t);
    }
  }

  lemma RetiredOne(m: State, u: TicketId, now: Instant, t: TicketId)
    requires References(m) && t in m.tickets
    ensures var s' := RetireOne(m, u, now);
            && t in s'.tickets
            && s'.tickets[t] == if t == u && Overdue(m, t, now) then m.tickets[t].(status := NoShow) else m.tickets[t]
  {
    if Overdue(m, u, now) { RetiresSo(m, u, NoShow, Some(now)); }
  }

  /** A sweep, also with an answer that is out of date, makes exactly the tickets named no-shows that are overdue. */
  lemma {:induction false} SweepTraced(s: State, due: seq<TicketId>, now: Instant, t: TicketId)
    requires Safe(s) && t in s.tickets
    ensures var s' := RetireAll(s, due, now);
            && t in s'.tickets
            && s'.tickets[t] ==
               if t in due && Overdue(s, t, now) then s.tickets[t].(status := NoShow) else s.tickets[t]
  {
    if due != [] {
      var n := |due| - 1;
      var m := RetireAll(s, due[..n], now);
      assert due == due[..n] + [due[n]];
      SweepTraced(s, due[..n], now, t);
      RetireAllKeeps(s, due[..n], now);
      RetiredOne(m, due[n], now, t);
    }
  }

  lemma ActTraced(q: DispatchStep, s: State, now: Instant, t: TicketId)
    requires Safe(s) && q.Acts? && Act(s, q.user, q.a, q.action, now).Ok? && t in s.tickets
    ensures Traced(q, s, Act(s, q.user, q.a, q.action, now).value, t)
  {
    ActsWhen(s, q.user, q.a, q.action, now);
    ActsSo(s, q.user, q.a, q.action, now);
  }

  // The assignment is closed and its employee available.
  predicate HandedBack(s: State, s': State, a: AssignmentId) {
    && a in s.assignments && a in s'.assignments && !s'.assignments[a].active
    && s.assignments[a].employee in s'.employees && s'.employees[s.assignments[a].employee].status == Available
  }

  lemma ExpiryTraced(q: DispatchStep, s: State, now: Instant, t: TicketId)
    requires Safe(s) && q.CallsExpire? && CallExpired(s, q.a, now) && t in s.tickets
    ensures Traced(q, s, ExpireCall(s, q.a), t)
    ensures !CallExpired(ExpireCall(s, q.a), q.a, now) && HandedBack(s, ExpireCall(s, q.a), q.a)
  {
    ExpiresSo(s, q.a);
  }

  lemma CancelTraced(q: DispatchStep, s: State, t: TicketId)
    requires Safe(s) && q.Cancels? && Cancel(s, q.t).Ok? && t in s.tickets
    ensures Traced(q, s, Cancel(s, q.t).value, t)
  {
    CancelsSo(s, q.t);
    LeavesTraced(q, s, Cancel(s, q.t).value, q.t, Cancelled, None, t);
  }

  /** A ticket's status changes only along these ways, each of which is one transaction's. */
  lemma EveryStatusHasItsOrigin(s: State, q: DispatchStep, now: Instant, t: TicketId)
    requires Safe(s) && QueueLegal(s, q, now) && Queue(s, q, now).Ok?
    requires t in s.tickets && t in Queue(s, q, now).value.tickets
    ensures Traced(q, s, Queue(s, q, now).value, t)
  {
    match q
    case ChecksIn(_, _) => CheckInTraced(q, s, now, t);
    case MissesBooking(u) => MarksNoShowSo(s, u, now);
    case Cancels(_) => CancelTraced(q, s, t);
    case ManagerSets(_, _, _, _) => ManagerTraced(q, s, now, t);
    case Acts(_, _, _) => ActTraced(q, s, now, t);
    case Turns(_, _, _) => TurnTraced(q, s, now, t);
    case Redirects(_, _) => RedirectTraced(q, s, now, t);
    case Seats(_, _) => SeatTraced(q, s, now, t);
    case Dispatches(e, pick) => if pick.Some? { TakenTraced(q, s, e, pick, t); }
    case CallsExpire(a) => if CallExpired(s, a, now) { ExpiryTraced(q, s, now, t); }
    case SweepsMissed(due) =>
      SweepTraced(s, due, now, t);
      if Overdue(s, t, now) { OverdueExactly(s, t, now); }
    case Purges(ids) => PurgesSo(s, ids);
  }

  // ----- what a request achieves -----

  /** The status each action leads to. */
  function Outcome(action: Action): TicketStatus {
    match action
    case Call => Called
    case Start => InService
    case Complete => Completed
    case Requeue => Requeued
    case MissedCall => NoShow
  }

  /** Afterwards things are as the request says. */
  ghost predicate Achieved(s: State, q: DispatchStep, now: Instant, s': State) {
    match q
    case ChecksIn(t, _) =>
      t in s'.tickets && s'.tickets[t].status in {CheckedIn, Assigned} && s'.tickets[t].checkedInAt == Some(now)
    case MissesBooking(t) => t in s'.tickets && s'.tickets[t].status == NoShow
    case Cancels(t) => t in s'.tickets && s'.tickets[t].status == Cancelled
    case ManagerSets(_, t, status, _) => t in s'.tickets && s'.tickets[t].status == status
    case Acts(_, a, action) =>
      && a in s.assignments && s.assignments[a].ticket in s'.tickets
      && s'.tickets[s.assignments[a].ticket].status == Outcome(action)
    case Turns(user, turned, pick) =>
      user in s'.employees && s'.employees[user].status == if pick.Some? then Reserved else turned
    case Redirects(e, country) => e in s'.employees && s'.employees[e].country == Some(country)
    case Seats(e, desk) => e in s'.employees && s'.employees[e].desk == desk
    case Dispatches(e, pick) =>
      pick.Some? ==> && pick.value in s'.tickets && s'.tickets[pick.value].status == Assigned
                     && e in s'.employees && s'.employees[e].status == Reserved
    case CallsExpire(a) => CallExpired(s, a, now) ==> !CallExpired(s', a, now) && HandedBack(s, s', a)
    case SweepsMissed(due) =>
      forall t | t in due && Overdue(s, t, now) :: t in s'.tickets && s'.tickets[t].status == NoShow
    case Purges(ids) => s'.tickets.Keys == s.tickets.Keys - ids
  }

  lemma TurnAchieved(s: State, user: EmployeeId, turned: EmployeeStatus, now: Instant, pick: Option<TicketId>)
    requires Safe(s) && turned in {Available, Paused, Offline} && ChangeEmployeeStatus(s, user, turned, now).Ok?
    requires GoodTail(ChangeEmployeeStatus(s, user, turned, now).value, pick)
    ensures var s' := Tail(ChangeEmployeeStatus(s, user, turned, now).value, pick);
            user in s'.employees && s'.employees[user].status == if pick.Some? then Reserved else turned
  {
    TurnsSo(s, user, turned, now);
    if turned == Available {
      ChangeEmployeeStatusTables(s, user, turned, now);
      TakesNext(ChangeEmployeeStatus(s, user, turned, now).value.tables, user, pick);
    }
  }

  lemma SeatAchieved(s: State, e: EmployeeId, desk: Option<DeskId>, now: Instant)
    requires Safe(s) && SetDesk(s, e, desk, now).Ok?
    ensures var s' := SetDesk(s, e, desk, now).value; e in s'.employees && s'.employees[e].desk == desk
  {
    match desk
    case None => LeavesDesk(s, e, now);
    case Some(d) => SeatsWhen(s, e, d, now);
  }

  /** A transaction that is not refused does what it is for. */
  lemma EveryRequestIsAchieved(s: State, q: DispatchStep, now: Instant)
    requires Safe(s) && QueueLegal(s, q, now) && Queue(s, q, now).Ok?
    ensures Achieved(s, q, now, Queue(s, q, now).value)
  {
    match q
    case ChecksIn(t, order) =>
      ChecksInWhen(s, t, now, order);
      CheckInTraced(q, s, now, t);
    case MissesBooking(t) => MarksNoShowSo(s, t, now);
    case Cancels(t) => CancelsSo(s, t);
    case ManagerSets(user, t, status, _) =>
      ManagerMayExactly(s, user, t, status, now);
      ManagerTraced(q, s, now, t);
    case Acts(user, a, action) =>
      ActsWhen(s, user, a, action, now);
      ActsSo(s, user, a, action, now);
    case Turns(user, turned, pick) => TurnAchieved(s, user, turned, now, pick);
    case Redirects(e, country) => RedirectsSo(s, e, country, now);
    case Seats(e, desk) => SeatAchieved(s, e, desk, now);
    case Dispatches(e, pick) => if pick.Some? { TakesNext(s, e, pick); }
    case CallsExpire(a) => if CallExpired(s, a, now) { ExpiryTraced(q, s, now, s.assignments[a].ticket); }
    case SweepsMissed(due) => forall t | t in due && Overdue(s, t, now) { SweepTraced(s, due, now, t); }
    case Purges(ids) => PurgesSo(s, ids);
  }
}
