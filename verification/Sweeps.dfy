/**
 * The timers: the missed-appointment sweep, the dispatch sweep and what they achieve; and the order in which
 * tickets are taken.
 */
module Sweeps {
  import opened Domain
  import opened QueueRules
  import opened Tables
  import opened Dispatch

  // ----- missed appointments -----

  const SWEEP_LIMIT := 100

  predicate Overdue(s: State, t: TicketId, now: Instant) {
    t in s.tickets && AutoNoShow(s.tickets[t].status) && AppointmentMissed(s.tickets[t].scheduledAt, now)
  }

  function Overdues(s: State, now: Instant): set<TicketId> {
    set t | t in s.tickets && Overdue(s, t, now)
  }

  predicate Distinct(ids: seq<nat>) {
    forall i, j | 0 <= i < j < |ids| :: ids[i] != ids[j]
  }

  function Ids(ids: seq<nat>): set<nat> {
    set i | i in ids
  }

  /** An answer to the sweep's query: up to a hundred overdue tickets in any order. */
  ghost predicate GoodDue(s: State, due: seq<TicketId>, now: Instant) {
    && Distinct(due) && Ids(due) <= Overdues(s, now)
    && |due| == (if |Overdues(s, now)| < SWEEP_LIMIT then |Overdues(s, now)| else SWEEP_LIMIT)
  }

  ghost function RetireOne(s: State, t: TicketId, now: Instant): State {
    if References(s) && Overdue(s, t, now) then Retire(s, t, NoShow, Some(now)) else s
  }

  /** The sweep, ticket by ticket. */
  ghost function RetireAll(s: State, due: seq<TicketId>, now: Instant): State {
    if due == [] then s else RetireOne(RetireAll(s, due[..|due| - 1], now), due[|due| - 1], now)
  }

  lemma {:induction false} RetireAllKeeps(s: State, due: seq<TicketId>, now: Instant)
    requires Safe(s)
    ensures Steps(s, RetireAll(s, due, now))
  {
    if due == [] {
      StepsReflexive(s);
    } else {
      var m := RetireAll(s, due[..|due| - 1], now);
      var t := due[|due| - 1];
      RetireAllKeeps(s, due[..|due| - 1], now);
      if Overdue(m, t, now) {
        RetireKeeps(m, t, NoShow, Some(now));
        StepsTransitive(s, m, RetireAll(s, due, now));
      }
    }
  }

  lemma StepsReflexive(s: State)
    requires Safe(s)
    ensures Steps(s, s)
  {
  }

  ghost predicate Freed(s: State, e: EmployeeId, gone: set<TicketId>) {
    exists a :: ActiveBy(s, a, e) && s.assignments[a].ticket in gone
  }

  ghost predicate SweptTickets(s: State, s': State, gone: set<TicketId>) {
    s'.tickets == map t | t in s.tickets :: if t in gone then s.tickets[t].(status := NoShow) else s.tickets[t]
  }

  function Closed(row: Assignment, gone: set<TicketId>, now: Instant): Assignment {
    if row.active && row.ticket in gone then row.(active := false, completedAt := Some(now)) else row
  }

  ghost predicate SweptAssignments(s: State, s': State, gone: set<TicketId>, now: Instant) {
    s'.assignments == map a | a in s.assignments :: Closed(s.assignments[a], gone, now)
  }

  ghost predicate SweptEmployees(s: State, s': State, gone: set<TicketId>) {
    s'.employees == map e | e in s.employees ::
        if Freed(s, e, gone) then s.employees[e].(status := Available) else s.employees[e]
  }

  /**
   * The whole effect of a sweep: the tickets in `gone` are no-shows, their assignments closed, their owners available.
   */
  ghost predicate Swept(s: State, s': State, gone: set<TicketId>, now: Instant) {
    SweptTickets(s, s', gone) && SweptAssignments(s, s', gone, now) && SweptEmployees(s, s', gone)
    && s'.place == s.place && s'.nextTicket == s.nextTicket && s'.nextAssignment == s.nextAssignment
  }

  // `s'` is `m` after one ticket more.
  ghost predicate OneMore(m: State, s': State, t: TicketId, now: Instant) {
    && t in m.tickets && s'.tickets == m.tickets[t := m.tickets[t].(status := NoShow)]
    && s'.place == m.place && s'.nextTicket == m.nextTicket && s'.nextAssignment == m.nextAssignment
    && match AssignmentFor(m, t)
       case None => s'.assignments == m.assignments && s'.employees == m.employees
       case Some(a) =>
         && s'.assignments == m.assignments[a := m.assignments[a].(active := false, completedAt := Some(now))]
         && var e := m.assignments[a].employee;
            e in m.employees && s'.employees == m.employees[e := m.employees[e].(status := Available)]
  }

  // A ticket the sweep has not reached is still served by the same assignment.
  lemma StillServed(s: State, m: State, gone: set<TicketId>, t: TicketId, now: Instant)
    requires Exclusive(s) && SweptAssignments(s, m, gone, now) && t !in gone
    ensures AssignmentFor(m, t) == AssignmentFor(s, t)
    ensures forall b :: ActiveFor(m, b, t) <==> ActiveFor(s, b, t)
    ensures AssignmentFor(s, t).Some? ==>
            m.assignments[AssignmentFor(s, t).value] == s.assignments[AssignmentFor(s, t).value]
  {
    var x := AssignmentFor(m, t);
    assert forall b :: ActiveFor(m, b, t) <==> ActiveFor(s, b, t);
    assert x.Some? ==> ActiveFor(s, x.value, t);
  }

  lemma OneMoreAssignment(s: State, m: State, s': State, gone: set<TicketId>, t: TicketId, now: Instant)
    requires Exclusive(s) && SweptAssignments(s, m, gone, now) && t !in gone && OneMore(m, s', t, now)
    ensures SweptAssignments(s, s', gone + {t}, now)
  {
    StillServed(s, m, gone, t, now);
    forall b | b in s.assignments ensures s'.assignments[b] == Closed(s.assignments[b], gone + {t}, now) {
      if s.assignments[b].active && s.assignments[b].ticket == t { assert ActiveFor(s, b, t); }
    }
  }

  lemma OneMoreEmployee(s: State, m: State, s': State, gone: set<TicketId>, t: TicketId, now: Instant)
    requires Exclusive(s) && SweptAssignments(s, m, gone, now) && SweptEmployees(s, m, gone) && t !in gone
    requires OneMore(m, s', t, now)
    ensures SweptEmployees(s, s', gone + {t})
  {
    StillServed(s, m, gone, t, now);
    forall e | e in s.employees
      ensures s'.employees[e] ==
              if Freed(s, e, gone + {t}) then s.employees[e].(status := Available) else s.employees[e]
    {
      FreedOne(s, e, t);
      assert Freed(s, e, gone + {t}) <==> Freed(s, e, gone) || Freed(s, e, {t});
    }
  }

  lemma FreedOne(s: State, e: EmployeeId, t: TicketId)
    requires Exclusive(s)
    ensures Freed(s, e, {t}) <==> AssignmentFor(s, t).Some? && s.assignments[AssignmentFor(s, t).value].employee == e
  {
    assert forall a | ActiveBy(s, a, e) && s.assignments[a].ticket == t :: ActiveFor(s, a, t);
    if AssignmentFor(s, t).Some? {
      assert ActiveBy(s, AssignmentFor(s, t).value, s.assignments[AssignmentFor(s, t).value].employee);
    }
  }

  lemma RetireOneMore(m: State, t: TicketId, now: Instant)
    requires References(m) && Overdue(m, t, now)
    ensures OneMore(m, RetireOne(m, t, now), t, now)
  {
  }

  lemma SweepOneMore(s: State, m: State, gone: set<TicketId>, t: TicketId, now: Instant)
    requires Exclusive(s) && References(m) && Swept(s, m, gone, now) && t in Overdues(s, now) && t !in gone
    ensures Swept(s, RetireOne(m, t, now), gone + {t}, now)
  {
    var s' := RetireOne(m, t, now);
    assert m.tickets[t] == s.tickets[t];
    RetireOneMore(m, t, now);
    OneMoreAssignment(s, m, s', gone, t, now);
    OneMoreEmployee(s, m, s', gone, t, now);
  }

  lemma IdsPrefix(ids: seq<nat>)
    requires ids != [] && Distinct(ids)
    ensures var before, t := ids[..|ids| - 1], ids[|ids| - 1];
            Distinct(before) && Ids(ids) == Ids(before) + {t} && t !in Ids(before) && t in Ids(ids)
  {
    assert ids == ids[..|ids| - 1] + [ids[|ids| - 1]];
  }

  /** The sweep's effect, whatever order the tickets come in. */
  lemma {:induction false} SweepEffect(s: State, due: seq<TicketId>, now: Instant)
    requires Safe(s) && Distinct(due) && Ids(due) <= Overdues(s, now)
    ensures Swept(s, RetireAll(s, due, now), Ids(due), now)
  {
    if due != [] {
      var before, t := due[..|due| - 1], due[|due| - 1];
      IdsPrefix(due);
      SweepEffect(s, before, now);
      RetireAllKeeps(s, before, now);
      SweepOneMore(s, RetireAll(s, before, now), Ids(before), t, now);
    }
  }

  lemma IdsCount(ids: seq<nat>)
    requires Distinct(ids)
    ensures |Ids(ids)| == |ids|
  {
    if ids != [] {
      IdsPrefix(ids);
      IdsCount(ids[..|ids| - 1]);
    }
  }

  /** Each sweep retires exactly min(100, overdue) tickets, all of them overdue. */
  lemma SweepCount(s: State, due: seq<TicketId>, now: Instant)
    requires Safe(s) && GoodDue(s, due, now)
    ensures var s' := RetireAll(s, due, now);
            && Overdues(s', now) == Overdues(s, now) - Ids(due)
            && |Overdues(s', now)| == (if |Overdues(s, now)| < 100 then 0 else |Overdues(s, now)| - 100)
  {
    SweepEffect(s, due, now);
    IdsCount(due);
    SweptOverdues(s, RetireAll(s, due, now), Ids(due), now);
  }

  lemma SweptOverdues(s: State, s': State, gone: set<TicketId>, now: Instant)
    requires SweptTickets(s, s', gone)
    ensures Overdues(s', now) == Overdues(s, now) - gone
  {
    assert forall t | t in s.tickets :: Overdue(s', t, now) <==> Overdue(s, t, now) && t !in gone;
  }

  /** Consecutive sweeps at one instant. */
  ghost predicate GoodSweeps(s: State, sweeps: seq<seq<TicketId>>, now: Instant)
    decreases |sweeps|
  {
    sweeps == [] || (GoodDue(s, sweeps[0], now) && GoodSweeps(RetireAll(s, sweeps[0], now), sweeps[1..], now))
  }

  ghost function AfterSweeps(s: State, sweeps: seq<seq<TicketId>>, now: Instant): State
    decreases |sweeps|
  {
    if sweeps == [] then s else AfterSweeps(RetireAll(s, sweeps[0], now), sweeps[1..], now)
  }

  /** Repeated sweeps retire a hundred at a time until none is overdue. */
  lemma {:induction false} SweepsDrain(s: State, sweeps: seq<seq<TicketId>>, now: Instant)
    requires Safe(s) && GoodSweeps(s, sweeps, now)
    ensures var left := |Overdues(s, now)| - 100 * |sweeps|;
            |Overdues(AfterSweeps(s, sweeps, now), now)| == if left < 0 then 0 else left
    decreases |sweeps|
  {
    if sweeps != [] {
      SweepCount(s, sweeps[0], now);
      RetireAllKeeps(s, sweeps[0], now);
      SweepsDrain(RetireAll(s, sweeps[0], now), sweeps[1..], now);
    }
  }

  // ----- dispatch -----

  /** An available employee could take a waiting ticket of its site, country and services, and its desk is free. */
  ghost predicate Starved(s: State, e: EmployeeId) {
    Dispatchable(s, e) && s.employees[e].status == Available && exists t :: Eligible(s, e, t)
  }

  lemma AfterDispatchNotStarved(s: State, e: EmployeeId, pick: Option<TicketId>)
    requires Safe(s) && GoodDispatch(s, e, pick)
    ensures !Starved(AssignNext(s, e, pick), e)
  {
    var s' := AssignNext(s, e, pick);
    if pick.Some? { assert ActiveBy(s', s.nextAssignment, e); }
  }

  // Opening an assignment makes nobody idle and no desk free.
  lemma OpenBusies(s: State, t: TicketId, e: EmployeeId)
    requires References(s) && t in s.tickets && e in s.employees
    ensures var s' := Open(s, t, e, Assigned, None);
            && !Idle(s', e) && (forall f | Idle(s', f) :: Idle(s, f)) && (forall d | DeskBusy(s, d) :: DeskBusy(s', d))
  {
    var s' := Open(s, t, e, Assigned, None);
    assert ActiveBy(s', s.nextAssignment, e);
    assert forall a | IsActive(s, a) :: IsActive(s', a) && s'.assignments[a] == s.assignments[a];
    assert forall a, f | ActiveBy(s, a, f) :: ActiveBy(s', a, f);
  }

  /** Whoever is starved after another employee's dispatch was starved before. */
  lemma DispatchStarvesNobody(s: State, e: EmployeeId, pick: Option<TicketId>, f: EmployeeId)
    requires Safe(s) && GoodDispatch(s, e, pick) && Starved(AssignNext(s, e, pick), f)
    ensures Starved(s, f)
  {
    if pick.Some? {
      OpenBusies(s, pick.value, e);
      assert f != e;
      var t :| Eligible(AssignNext(s, e, pick), f, t);
      assert Eligible(s, f, t);
    }
  }

  /** The employee loop of the sweep. */
  function DispatchAll(s: State, employees: seq<EmployeeId>, picks: seq<Option<TicketId>>): State
    requires |picks| == |employees|
  {
    if employees == [] then s
    else var n := |employees| - 1;
      AssignNext(DispatchAll(s, employees[..n], picks[..n]), employees[n], picks[n])
  }

  ghost predicate GoodPicks(s: State, employees: seq<EmployeeId>, picks: seq<Option<TicketId>>)
    requires |picks| == |employees|
  {
    employees == []
    || var n := |employees| - 1;
       && GoodPicks(s, employees[..n], picks[..n])
       && GoodDispatch(DispatchAll(s, employees[..n], picks[..n]), employees[n], picks[n])
  }

  lemma {:induction false} DispatchAllKeeps(s: State, employees: seq<EmployeeId>, picks: seq<Option<TicketId>>)
    requires Safe(s) && |picks| == |employees| && GoodPicks(s, employees, picks)
    ensures Steps(s, DispatchAll(s, employees, picks))
  {
    if employees == [] {
      StepsReflexive(s);
    } else {
      var n := |employees| - 1;
      var m := DispatchAll(s, employees[..n], picks[..n]);
      DispatchAllKeeps(s, employees[..n], picks[..n]);
      DispatchKeeps(m, employees[n], picks[n]);
      StepsTransitive(s, m, DispatchAll(s, employees, picks));
    }
  }

  /** Whoever is starved after the loop was starved before and not in it. */
  lemma {:induction false} DispatchAllStarved(s: State, employees: seq<EmployeeId>, picks: seq<Option<TicketId>>,
                                              e: EmployeeId)
    requires Safe(s) && |picks| == |employees| && GoodPicks(s, employees, picks)
    requires Starved(DispatchAll(s, employees, picks), e)
    ensures Starved(s, e) && e !in employees
  {
    if employees != [] {
      var n := |employees| - 1;
      var m := DispatchAll(s, employees[..n], picks[..n]);
      assert Safe(m) by { DispatchAllKeeps(s, employees[..n], picks[..n]); }
      assert e != employees[n] by {
        AfterDispatchNotStarved(m, employees[n], picks[n]);
      }
      assert Starved(m, e) by {
        DispatchStarvesNobody(m, employees[n], picks[n], e);
      }
      DispatchAllStarved(s, employees[..n], picks[..n], e);
      assert employees == employees[..n] + [employees[n]];
    }
  }

  /** Work conservation: a sweep over all available employees leaves nobody idle beside a ticket it could take. */
  lemma WorkConserved(s: State, employees: seq<EmployeeId>, picks: seq<Option<TicketId>>, e: EmployeeId)
    requires Safe(s) && |picks| == |employees| && GoodPicks(s, employees, picks)
    requires forall f | f in s.employees && s.employees[f].status == Available :: f in employees
    ensures !Starved(DispatchAll(s, employees, picks), e)
  {
    if Starved(DispatchAll(s, employees, picks), e) { DispatchAllStarved(s, employees, picks, e); }
  }

  function Ready(s: State): set<EmployeeId> {
    set e | e in s.employees && s.employees[e].status == Available
  }

  /** An answer to the sweep's query: up to a hundred available employees. */
  ghost predicate GoodEmployees(s: State, employees: seq<EmployeeId>) {
    && Distinct(employees) && Ids(employees) <= Ready(s)
    && |employees| == (if |Ready(s)| < SWEEP_LIMIT then |Ready(s)| else SWEEP_LIMIT)
  }

  /** With at most a hundred available employees the query misses none of them. */
  lemma AllListed(s: State, employees: seq<EmployeeId>, f: EmployeeId)
    requires GoodEmployees(s, employees) && |Ready(s)| <= SWEEP_LIMIT && f in Ready(s)
    ensures f in employees
  {
    IdsCount(employees);
    var left := Ready(s) - Ids(employees);
    assert Ready(s) == Ids(employees) + left;
    assert f !in left;
  }

  lemma DispatchOneMore(s: State, employees: seq<EmployeeId>, picks: seq<Option<TicketId>>, e: EmployeeId,
                        pick: Option<TicketId>)
    requires |picks| == |employees|
    ensures DispatchAll(s, employees + [e], picks + [pick]) == AssignNext(DispatchAll(s, employees, picks), e, pick)
    ensures GoodPicks(s, employees + [e], picks + [pick])
            <==> GoodPicks(s, employees, picks) && GoodDispatch(DispatchAll(s, employees, picks), e, pick)
  {
    assert (employees + [e])[..|employees|] == employees && (picks + [pick])[..|picks|] == picks;
  }

  lemma GoodPickExists(s: State, e: EmployeeId) returns (pick: Option<TicketId>)
    ensures GoodPick(s, e, pick)
  {
    pick := None;
    if Dispatchable(s, e) && exists t :: Eligible(s, e, t) {
      var all := set t | t in s.tickets && Eligible(s, e, t);
      var own := set t | t in s.tickets && EligibleOwn(s, e, t);
      var t :| Eligible(s, e, t);
      assert t in all;
      var pool := if own != {} then own else all;
      var first := Minimal(pool, (x, y) => x in s.tickets && y in s.tickets && Before(s.tickets[x], s.tickets[y]));
      assert forall u | EligibleOwn(s, e, u) :: u in own;
      assert forall u | Eligible(s, e, u) :: u in all;
      pick := Some(first);
    }
  }

  /** A ticket that came back is taken only if no checked-in one with a slot is in the same pool. */
  lemma CheckedInFirst(s: State, e: EmployeeId, t: TicketId, u: TicketId)
    requires Safe(s) && FirstInOrder(s, e, t) && s.tickets[t].status == Requeued
    requires Eligible(s, e, u) && s.tickets[u].scheduledAt.Some?
    requires EligibleOwn(s, e, u) || (forall v :: !EligibleOwn(s, e, v))
    ensures s.tickets[u].status == Requeued
  {
    assert !Before(s.tickets[u], s.tickets[t]);
    assert PriorityFits(s.tickets[u]) && PriorityFits(s.tickets[t]);
  }

  // ----- unanswered calls -----

  function AfterCall(row: Ticket): Ticket {
    if row.callAttempts >= 2 then row.(status := NoShow) else row.(status := Requeued, priority := 0)
  }

  ghost predicate CallClosed(s: State, s': State, a: AssignmentId)
    requires References(s) && a in s.assignments
  {
    var row := s.assignments[a];
    && a in s'.assignments && s'.assignments[a] == row.(active := false)
    && row.ticket in s'.tickets && s'.tickets[row.ticket] == AfterCall(s.tickets[row.ticket])
    && row.employee in s'.employees && s'.employees[row.employee] == s.employees[row.employee].(status := Available)
  }

  ghost predicate Untouched(s: State, s': State, a: AssignmentId)
    requires References(s) && a in s.assignments
  {
    var row := s.assignments[a];
    && a in s'.assignments && s'.assignments[a] == row
    && (row.active ==>
          && row.ticket in s'.tickets && s'.tickets[row.ticket] == s.tickets[row.ticket]
          && row.employee in s'.employees && s'.employees[row.employee] == s.employees[row.employee])
  }

  ghost predicate ClosedOrNot(s: State, s': State, gone: set<AssignmentId>, a: AssignmentId)
    requires References(s) && a in s.assignments
  {
    if a in gone then CallClosed(s, s', a) else Untouched(s, s', a)
  }

  // Nobody without an assignment and no ticket without one is touched.
  ghost predicate RestUntouched(s: State, s': State) {
    && s'.assignments.Keys == s.assignments.Keys && s'.tickets.Keys == s.tickets.Keys
    && s'.employees.Keys == s.employees.Keys
    && s'.place == s.place && s'.nextTicket == s.nextTicket && s'.nextAssignment == s.nextAssignment
    && (forall t | t in s.tickets && Unassigned(s, t) :: s'.tickets[t] == s.tickets[t])
    && (forall e | e in s.employees && Idle(s, e) :: s'.employees[e] == s.employees[e])
  }

  /** The whole effect of the timeout: the calls in `gone` are closed, nothing else changes. */
  ghost predicate CallsClosed(s: State, s': State, gone: set<AssignmentId>)
    requires References(s)
  {
    RestUntouched(s, s') && forall a | a in s.assignments :: ClosedOrNot(s, s', gone, a)
  }

  // `s'` is `m` after one call more.
  ghost predicate ClosesCall(m: State, s': State, a: AssignmentId, row: Assignment) {
    && row.ticket in m.tickets && row.employee in m.employees
    && s'.assignments == m.assignments[a := row.(active := false)]
    && s'.tickets == m.tickets[row.ticket := AfterCall(m.tickets[row.ticket])]
    && s'.employees == m.employees[row.employee := m.employees[row.employee].(status := Available)]
    && s'.place == m.place && s'.nextTicket == m.nextTicket && s'.nextAssignment == m.nextAssignment
  }

  lemma ExpireClosesCall(m: State, a: AssignmentId)
    requires References(m) && IsActive(m, a) && m.tickets[m.assignments[a].ticket].status == Called
    requires m.assignments[a].completedAt.None?
    ensures ClosesCall(m, ExpireCall(m, a), a, m.assignments[a])
  {
  }

  lemma OtherRow(s: State, m: State, s': State, gone: set<AssignmentId>, a: AssignmentId, b: AssignmentId)
    requires References(s) && Exclusive(s) && IsActive(s, a) && b in s.assignments && b != a
    requires ClosesCall(m, s', a, s.assignments[a]) && (b in gone ==> IsActive(s, b)) && ClosedOrNot(s, m, gone, b)
    ensures ClosedOrNot(s, s', gone + {a}, b)
  {
    assert IsActive(s, b) ==>
      && s.assignments[b].ticket != s.assignments[a].ticket
      && s.assignments[b].employee != s.assignments[a].employee;
  }

  lemma ThisRow(s: State, m: State, s': State, gone: set<AssignmentId>, a: AssignmentId)
    requires References(s) && IsActive(s, a) && a !in gone && ClosesCall(m, s', a, s.assignments[a])
    requires ClosedOrNot(s, m, gone, a)
    ensures ClosedOrNot(s, s', gone + {a}, a)
  {
  }

  lemma RestStays(s: State, m: State, s': State, a: AssignmentId)
    requires RestUntouched(s, m) && IsActive(s, a) && ClosesCall(m, s', a, s.assignments[a])
    ensures RestUntouched(s, s')
  {
    assert ActiveFor(s, a, s.assignments[a].ticket) && ActiveBy(s, a, s.assignments[a].employee);
  }

  lemma OneMoreCall(s: State, m: State, s': State, gone: set<AssignmentId>, a: AssignmentId)
    requires References(s) && Exclusive(s) && CallsClosed(s, m, gone) && (forall b | b in gone :: IsActive(s, b))
    requires IsActive(s, a) && a !in gone && ClosesCall(m, s', a, s.assignments[a])
    ensures CallsClosed(s, s', gone + {a})
  {
    RestStays(s, m, s', a);
    forall b | b in s.assignments ensures ClosedOrNot(s, s', gone + {a}, b) {
      if b != a { OtherRow(s, m, s', gone, a, b); } else { ThisRow(s, m, s', gone, a); }
    }
  }

  function ExpiredCalls(s: State, now: Instant): set<AssignmentId> {
    set a | a in s.assignments && CallExpired(s, a, now)
  }

  /** The timeout, call by call. */
  ghost function ExpireAll(s: State, calls: seq<AssignmentId>): State {
    if calls == [] then s
    else
      var m := ExpireAll(s, calls[..|calls| - 1]);
      if References(m) then ExpireCall(m, calls[|calls| - 1]) else m
  }

  lemma {:induction false} ExpireAllKeeps(s: State, calls: seq<AssignmentId>)
    requires Safe(s)
    ensures Steps(s, ExpireAll(s, calls))
  {
    if calls == [] {
      StepsReflexive(s);
    } else {
      var m := ExpireAll(s, calls[..|calls| - 1]);
      ExpireAllKeeps(s, calls[..|calls| - 1]);
      ExpireCallKeeps(m, calls[|calls| - 1]);
      StepsTransitive(s, m, ExpireAll(s, calls));
    }
  }

  lemma CallNotReached(s: State, m: State, gone: set<AssignmentId>, a: AssignmentId, now: Instant)
    requires References(s) && AssignmentsFit(s) && CallsClosed(s, m, gone) && a !in gone && CallExpired(s, a, now)
    requires References(m)
    ensures ClosesCall(m, ExpireCall(m, a), a, s.assignments[a])
  {
    assert ClosedOrNot(s, m, gone, a) && s.assignments[a].completedAt.None?;
    ExpireClosesCall(m, a);
  }

  /** The timeout's effect, whatever order the calls come in. */
  lemma {:induction false} ExpireEffect(s: State, calls: seq<AssignmentId>, now: Instant)
    requires Safe(s) && Distinct(calls) && Ids(calls) <= ExpiredCalls(s, now)
    ensures CallsClosed(s, ExpireAll(s, calls), Ids(calls))
  {
    if calls != [] {
      var before, a := calls[..|calls| - 1], calls[|calls| - 1];
      IdsPrefix(calls);
      ExpireEffect(s, before, now);
      ExpireAllKeeps(s, before);
      var m := ExpireAll(s, before);
      CallNotReached(s, m, Ids(before), a, now);
      OneMoreCall(s, m, ExpireAll(s, calls), Ids(before), a);
    }
  }

  /** After the timeout no call is left that has gone unanswered too long. */
  lemma NoneExpired(s: State, s': State, now: Instant)
    requires References(s) && CallsClosed(s, s', ExpiredCalls(s, now))
    ensures ExpiredCalls(s', now) == {}
  {
    forall a | a in s'.assignments ensures !CallExpired(s', a, now) {
      assert ClosedOrNot(s, s', ExpiredCalls(s, now), a);
    }
  }

  // ----- who may act, and who sees -----

  /** managerTicketVisibleInList for the ticket's rows in the database. */
  ghost predicate VisibleInList(s: State, t: TicketId, viewer: EmployeeId)
    requires References(s) && t in s.tickets
  {
    !InProgress(s.tickets[t].status)
    || (match AssignmentFor(s, t)
        case None => true
        case Some(a) => s.assignments[a].employee == viewer)
  }

  /** A ticket in progress has one owner, and only the owner sees it. */
  lemma OneOwner(s: State, t: TicketId)
    requires Safe(s) && t in s.tickets && InProgress(s.tickets[t].status)
    ensures exists a :: ActiveFor(s, a, t) && (forall v :: VisibleInList(s, t, v) <==> ActiveBy(s, a, v))
  {
    var a := AssignmentFor(s, t).value;
    assert forall v :: VisibleInList(s, t, v) <==> ActiveBy(s, a, v);
  }

  /** An employee's action never hands out a ticket: completing one leaves the next to the sweep. */
  lemma ActNeverDispatches(s: State, user: EmployeeId, a: AssignmentId, action: Action, now: Instant)
    requires Safe(s) && Act(s, user, a, action, now).Ok?
    ensures var s' := Act(s, user, a, action, now).value;
            && s'.assignments.Keys == s.assignments.Keys
            && (forall t | t in s.tickets && Live(s.tickets[t].status) :: s'.tickets[t] == s.tickets[t])
            && (action in {Complete, Requeue, MissedCall} ==> Idle(s', user) && s'.employees[user].status == Available)
  {
    var ticket := s.assignments[a].ticket;
    assert InProgress(s.tickets[ticket].status);
    if action in {Complete, Requeue, MissedCall} {
      var next := NextTicketStatus(s.tickets[ticket].status, action, s.tickets[ticket].scheduledAt.Some?).value;
      CloseFrees(s, a, next, Available, Some(now));
    }
  }

  /** No purge deletes an active assignment. */
  lemma PurgeSparesActive(s: State, ids: set<TicketId>, a: AssignmentId)
    requires Safe(s) && (forall t | t in ids :: t in s.tickets && Terminal(s.tickets[t].status))
    ensures IsActive(s, a) ==> a in Purge(s, ids).assignments && Purge(s, ids).assignments[a] == s.assignments[a]
  {
    PurgeSafe(s, ids);
  }
}
