/** How often an unanswered call puts a ticket back into the queue. */
module CallHistories {
  import opened Domain
  import opened QueueRules
  import opened Tables
  import opened Dispatch
  import opened Sweeps
  import opened Runs
  import opened Histories

  /** A ticket comes to be called only by a counted call. */
  predicate Counted(s: State, s': State, t: TicketId) {
    t in s.tickets && t in s'.tickets && s'.tickets[t].status == Called ==>
      s.tickets[t].status == Called || s.tickets[t].callAttempts < s'.tickets[t].callAttempts
  }

  /** A manager calls the ticket by hand. */
  ghost predicate CalledByHand(s: State, o: Occurrence, t: TicketId) {
    && o.event.OnQueue? && o.event.q.ManagerSets? && o.event.q.t == t && o.event.q.status == Called
    && ManagerRefusal(s, o.event.q.user, t, Called).None? && s.tickets[t].status != Called
  }

  // Whoever is called was called before.
  predicate NobodyCalled(s: State, s': State, t: TicketId) {
    t in s'.tickets && s'.tickets[t].status == Called ==> t in s.tickets && s.tickets[t].status == Called
  }

  lemma TurnCounted(s: State, user: EmployeeId, status: EmployeeStatus, pick: Option<TicketId>, now: Instant,
                    t: TicketId)
    requires Safe(s) && ChangeEmployeeStatus(s, user, status, now).Ok?
    ensures Counted(s, Tail(ChangeEmployeeStatus(s, user, status, now).value, pick), t)
  {
  }

  lemma ReleaseCallsNobody(s: State, e: EmployeeId, status: EmployeeStatus, now: Instant, t: TicketId)
    requires References(s) && Release(s, e, status, now).Ok?
    ensures NobodyCalled(s, Release(s, e, status, now).value, t)
  {
  }

  lemma VacateCallsNobody(s: State, d: DeskId, e: EmployeeId, now: Instant, t: TicketId)
    requires References(s) && Vacate(s, d, e, now).Ok?
    ensures NobodyCalled(s, Vacate(s, d, e, now).value, t)
  {
    if exists f :: SeatedAt(s, f, d) && f != e {
      var f :| SeatedAt(s, f, d) && f != e && Vacate(s, d, e, now) == Unseat(s, f, now);
      assert Unseat(s, f, now).Ok?;
      ReleaseCallsNobody(s, f, Paused, now, t);
    }
  }

  lemma SeatCounted(s: State, e: EmployeeId, desk: Option<DeskId>, now: Instant, t: TicketId)
    requires Safe(s) && SetDesk(s, e, desk, now).Ok?
    ensures Counted(s, SetDesk(s, e, desk, now).value, t)
  {
    match desk
    case None => ReleaseCallsNobody(s, e, Paused, now, t);
    case Some(d) =>
      VacateCallsNobody(s, d, e, now, t);
      ReleaseCallsNobody(Vacate(s, d, e, now).value, e, Paused, now, t);
  }

  lemma ManagerCounted(s: State, user: EmployeeId, u: TicketId, status: TicketStatus, pick: Option<TicketId>,
                       now: Instant, t: TicketId)
    requires Safe(s) && ManagerChange(s, user, u, status, now).Ok?
    requires !(u == t && status == Called && s.tickets[t].status != Called)
    ensures Counted(s, Tail(ManagerChange(s, user, u, status, now).value, pick), t)
  {
  }

  lemma ActCounted(s: State, user: EmployeeId, a: AssignmentId, action: Action, now: Instant, t: TicketId)
    requires Safe(s) && Act(s, user, a, action, now).Ok?
    ensures Counted(s, Act(s, user, a, action, now).value, t)
  {
  }

  lemma RedirectCounted(s: State, e: EmployeeId, country: Country, now: Instant, t: TicketId)
    requires Safe(s) && SetCountry(s, e, country, now).Ok?
    ensures Counted(s, SetCountry(s, e, country, now).value, t)
  {
  }

  lemma {:induction false} SweepCallsNobody(s: State, due: seq<TicketId>, now: Instant, t: TicketId)
    requires Safe(s)
    ensures NobodyCalled(s, RetireAll(s, due, now), t)
  {
    if due != [] { SweepCallsNobody(s, due[..|due| - 1], now, t); }
  }

  lemma CheckInCounted(s: State, u: TicketId, now: Instant, order: seq<EmployeeId>, t: TicketId)
    requires Safe(s) && CheckIn(s, u, now, order).Ok?
    ensures Counted(s, CheckIn(s, u, now, order).value, t)
  {
  }

  lemma CancelCounted(s: State, u: TicketId, t: TicketId)
    requires Safe(s) && Cancel(s, u).Ok?
    ensures Counted(s, Cancel(s, u).value, t)
  {
  }

  lemma QueueCounted(s: State, q: DispatchStep, now: Instant, t: TicketId)
    requires Safe(s) && Queue(s, q, now).Ok? && !CalledByHand(s, Happens(now, OnQueue(q)), t)
    ensures Counted(s, Queue(s, q, now).value, t)
  {
    match q
    case ChecksIn(u, order) => CheckInCounted(s, u, now, order, t);
    case Cancels(u) => CancelCounted(s, u, t);
    case SweepsMissed(due) => SweepCallsNobody(s, due, now, t);
    case Turns(user, status, pick) => TurnCounted(s, user, status, pick, now, t);
    case Seats(e, desk) => SeatCounted(s, e, desk, now, t);
    case ManagerSets(user, u, status, pick) => ManagerCounted(s, user, u, status, pick, now, t);
    case Acts(user, a, action) => ActCounted(s, user, a, action, now, t);
    case Redirects(e, country) => RedirectCounted(s, e, country, now, t);
    case _ =>
  }

  /** The call timeout puts the ticket back into the queue. */
  ghost predicate TimesOut(s: State, o: Occurrence, t: TicketId) {
    && o.event.OnQueue? && o.event.q.CallsExpire? && ActiveFor(s, o.event.q.a, t)
    && t in s.tickets && s.tickets[t].status == Called && s.tickets[t].callAttempts < 2
  }

  /** How often that can still happen unless somebody calls the ticket by hand. */
  function Chances(s: State, t: TicketId): nat {
    if t !in s.tickets then (if t < s.nextTicket then 0 else 1)
    else if s.tickets[t].callAttempts >= 2 then 0
    else (if s.tickets[t].callAttempts == 0 then 1 else 0) + (if s.tickets[t].status == Called then 1 else 0)
  }

  lemma EvolvedChances(s: State, s': State, t: TicketId)
    requires References(s) && References(s') && TicketsEvolve(s, s') && Counted(s, s', t)
    requires t in s'.tickets && t !in s.tickets ==> s'.tickets[t].status != Called
    ensures Chances(s', t) <= Chances(s, t)
  {
  }

  lemma TimeoutUsesChance(s: State, a: AssignmentId, t: TicketId)
    requires Safe(s) && ActiveFor(s, a, t) && s.tickets[t].status == Called && s.tickets[t].callAttempts < 2
    ensures var s' := ExpireCall(s, a);
            t in s'.tickets && s'.tickets[t].status == Requeued && Chances(s', t) + 1 == Chances(s, t)
  {
  }

  /** A call by hand adds one chance at most. */
  lemma HandAddsChance(s: State, user: EmployeeId, t: TicketId, now: Instant)
    requires Safe(s) && ManagerRefusal(s, user, t, Called).None? && s.tickets[t].status != Called
    ensures var s' := ManagerChange(s, user, t, Called, now).value.tables;
            Chances(s', t) == Chances(s, t) + (if s.tickets[t].callAttempts < 2 then 1 else 0)
  {
  }

  lemma NextChances(y: System, o: Occurrence, t: TicketId)
    requires Good(y) && Legal(y, o)
    ensures Chances(Next(y, o).db, t) + (if TimesOut(y.db, o, t) then 1 else 0)
            <= Chances(y.db, t) + (if CalledByHand(y.db, o, t) then 1 else 0)
  {
    var s' := Next(y, o).db;
    match o.event
    case OnQueue(q) =>
      if TimesOut(y.db, o, t) {
        TimeoutUsesChance(y.db, q.a, t);
      } else if CalledByHand(y.db, o, t) {
        HandAddsChance(y.db, q.user, t, o.now);
      } else {
        QueueTickets(y, o);
        NextGood(y, o);
        if Queue(y.db, q, o.now).Ok? { QueueCounted(y.db, q, o.now, t); }
        EvolvedChances(y.db, s', t);
      }
    case AtDesk(_) => NextGood(y, o); DeskTickets(y, o); EvolvedChances(y.db, s', t);
    case _ => NextGood(y, o); OfficeTickets(y, o); EvolvedChances(y.db, s', t);
  }

  ghost function TimeoutRequeues(y: System, run: seq<Occurrence>, t: TicketId): nat
    requires Good(y) && LegalRun(y, run)
    decreases |run|
  {
    if run == [] then 0
    else
      (if TimesOut(y.db, run[0], t) then 1 else 0)
      + (NextGood(y, run[0]); TimeoutRequeues(Next(y, run[0]), run[1..], t))
  }

  ghost function CallsByHand(y: System, run: seq<Occurrence>, t: TicketId): nat
    requires Good(y) && LegalRun(y, run)
    decreases |run|
  {
    if run == [] then 0
    else
      (if CalledByHand(y.db, run[0], t) then 1 else 0)
      + (NextGood(y, run[0]); CallsByHand(Next(y, run[0]), run[1..], t))
  }

  /** In any run the call timeout puts a ticket back at most as often as its chances, and once for each call by hand. */
  lemma {:induction false} RequeuesBounded(y: System, run: seq<Occurrence>, t: TicketId)
    requires Good(y) && LegalRun(y, run)
    ensures TimeoutRequeues(y, run, t) <= Chances(y.db, t) + CallsByHand(y, run, t)
    decreases |run|
  {
    if run != [] {
      NextGood(y, run[0]);
      NextChances(y, run[0], t);
      RequeuesBounded(Next(y, run[0]), run[1..], t);
    }
  }

  /** A ticket that is not being called, and that nobody calls by hand, is put back at most once. */
  lemma RequeuedOnce(y: System, run: seq<Occurrence>, t: TicketId)
    requires Good(y) && LegalRun(y, run) && CallsByHand(y, run, t) == 0
    requires t in y.db.tickets ==> y.db.tickets[t].status != Called
    ensures TimeoutRequeues(y, run, t) <= 1
  {
    RequeuesBounded(y, run, t);
  }

  /** A call by hand is not counted, so a ticket called only so comes back after every unanswered call. */
  lemma CalledByHandComesBack(s: State, user: EmployeeId, t: TicketId, now: Instant)
    requires Safe(s) && t in s.tickets && s.tickets[t].status != Called && s.tickets[t].callAttempts < 2
    requires ManagerChange(s, user, t, Called, now).Ok?
    ensures var m := ManagerChange(s, user, t, Called, now).value.tables;
            var s' := ExpireCall(m, s.nextAssignment);
            && ActiveFor(m, s.nextAssignment, t)
            && References(m) && s'.tickets[t].status == Requeued
            && s'.tickets[t].callAttempts == s.tickets[t].callAttempts
  {
    OpenKeeps(s, t, user, Called, Some(now));
  }
}
