/** Which employee works at which desk along whole runs, and when two come to work at one. */
module DeskHistories {
  import opened Domain
  import opened Tables
  import opened Dispatch
  import opened Sweeps
  import opened Holds
  import opened Office
  import opened Runs

  /** No desk has two active assignments. */
  ghost predicate OneAtDesk(s: State) {
    forall a, b | IsActive(s, a) && IsActive(s, b) && a != b && s.assignments[a].desk.Some? ::
      s.assignments[a].desk != s.assignments[b].desk
  }

  // ----- assignments at their employees' desks -----

  /** While every assignment is worked at its employee's desk, no desk has two. */
  lemma AgreeIsExclusive(s: State)
    requires Safe(s) && DesksAgree(s)
    ensures OneAtDesk(s)
  {
  }

  /** Deleting a desk breaks the agreement exactly when somebody at the desk still has an assignment. */
  lemma DropDeskExact(s: State, d: DeskId)
    requires Safe(s) && DesksAgree(s) && DeleteDesk(s, d).Ok?
    ensures DesksAgree(DeleteDesk(s, d).value) <==> forall e | SeatedAt(s, e, d) :: Idle(s, e)
  {
    var s' := DeleteDesk(s, d).value;
    assert forall a :: IsActive(s', a) == IsActive(s, a);
    if e :| SeatedAt(s, e, d) && !Idle(s, e) {
      var a := AssignmentOf(s, e).value;
      assert IsActive(s', a) && s'.assignments[a].desk != s'.employees[e].desk;
    } else {
      forall a | IsActive(s', a) ensures s'.assignments[a].desk == s'.employees[s'.assignments[a].employee].desk {
        assert IsActive(s, a) && ActiveBy(s, a, s.assignments[a].employee);
        assert !SeatedAt(s, s.assignments[a].employee, d);
      }
    }
  }

  ghost predicate WorkedAt(s: State, d: DeskId) {
    exists e :: SeatedAt(s, e, d) && !Idle(s, e)
  }

  /** A desk is deleted under an employee who has an assignment. */
  ghost predicate DropsWorkedDesk(s: State, o: Occurrence) {
    DropsADesk(o) && DeleteDesk(s, o.event.o.d).Ok? && WorkedAt(s, o.event.o.d)
  }

  lemma NextDropAgrees(y: System, o: Occurrence, d: DeskId)
    requires Safe(y.db) && DesksAgree(y.db) && o.event == InOffice(DropsDesk(d))
    ensures DesksAgree(Next(y, o).db) <==> !DropsWorkedDesk(y.db, o)
  {
    if DeleteDesk(y.db, d).Ok? { DropDeskExact(y.db, d); }
  }

  lemma NextDesksAgree(y: System, o: Occurrence)
    requires Good(y) && Legal(y, o) && DesksAgree(y.db)
    ensures DesksAgree(Next(y, o).db) <==> !DropsWorkedDesk(y.db, o)
  {
    if DropsADesk(o) {
      NextDropAgrees(y, o, o.event.o.d);
    } else {
      NextGood(y, o);
    }
  }

  ghost predicate AgreeThroughout(y: System, run: seq<Occurrence>)
    requires Good(y) && LegalRun(y, run)
    decreases |run|
  {
    DesksAgree(y.db) && (run == [] || (NextGood(y, run[0]); AgreeThroughout(Next(y, run[0]), run[1..])))
  }

  ghost predicate SparesWorkedDesks(y: System, run: seq<Occurrence>)
    requires Good(y) && LegalRun(y, run)
    decreases |run|
  {
    run == []
    || (!DropsWorkedDesk(y.db, run[0]) && (NextGood(y, run[0]); SparesWorkedDesks(Next(y, run[0]), run[1..])))
  }

  /**
   * In every state of a run each assignment is worked at its employee's desk, exactly as long as no desk is deleted
   * under an employee who has an assignment.
   */
  lemma {:induction false} RunDesksAgree(y: System, run: seq<Occurrence>)
    requires Good(y) && LegalRun(y, run) && DesksAgree(y.db)
    ensures AgreeThroughout(y, run) <==> SparesWorkedDesks(y, run)
    decreases |run|
  {
    if run != [] {
      NextGood(y, run[0]);
      NextDesksAgree(y, run[0]);
      if !DropsWorkedDesk(y.db, run[0]) { RunDesksAgree(Next(y, run[0]), run[1..]); }
    }
  }

  // ----- two assignments at one desk -----

  /** A step that opens no assignment puts no two at a desk. */
  lemma NothingOpened(s: State, s': State)
    requires Safe(s) && Safe(s') && Evolves(s, s') && s'.nextAssignment == s.nextAssignment && OneAtDesk(s)
    ensures OneAtDesk(s')
  {
    forall a | IsActive(s', a) ensures IsActive(s, a) && s'.assignments[a].desk == s.assignments[a].desk {
      assert Stage(s, a) <= Stage(s', a);
      assert Fits(s'.assignments[a], s'.tickets[s'.assignments[a].ticket], s'.employees[s'.assignments[a].employee]);
    }
  }

  /** Opening one does so exactly when the employee's desk has one already. */
  lemma OpenAtDesk(s: State, t: TicketId, e: EmployeeId, status: TicketStatus, calledAt: Option<Instant>)
    requires References(s) && OneAtDesk(s) && t in s.tickets && e in s.employees
    ensures OneAtDesk(Open(s, t, e, status, calledAt))
            <==> s.employees[e].desk.None? || !DeskBusy(s, s.employees[e].desk.value)
  {
    var s' := Open(s, t, e, status, calledAt);
    var n := s.nextAssignment;
    assert forall a | IsActive(s, a) :: a != n && IsActive(s', a) && s'.assignments[a] == s.assignments[a];
    assert forall a | IsActive(s', a) && a != n :: IsActive(s, a);
    assert IsActive(s', n) && s'.assignments[n].desk == s.employees[e].desk;
  }

  /** The query of assignNext looks at the desk, so handing out the next ticket puts no two at it. */
  lemma AssignNextAtDesk(s: State, e: EmployeeId, pick: Option<TicketId>)
    requires References(s) && OneAtDesk(s) && GoodPick(s, e, pick)
    ensures OneAtDesk(AssignNext(s, e, pick))
  {
    if pick.Some? { OpenAtDesk(s, pick.value, e, Assigned, None); }
  }

  lemma TailAtDesk(p: Progress, pick: Option<TicketId>)
    requires References(p.tables) && OneAtDesk(p.tables) && GoodTail(p, pick)
    ensures OneAtDesk(Tail(p, pick))
  {
    if p.dispatch.Some? { AssignNextAtDesk(p.tables, p.dispatch.value, pick); }
  }

  /** So does check-in. */
  lemma CheckInAtDesk(s: State, t: TicketId, now: Instant, order: seq<EmployeeId>)
    requires Safe(s) && OneAtDesk(s) && CheckIn(s, t, now, order).Ok?
    ensures OneAtDesk(CheckIn(s, t, now, order).value)
  {
    var m := SetTicket(s, t, s.tickets[t].(status := CheckedIn, priority := 1, checkedInAt := Some(now)));
    assert References(m) && OneAtDesk(m) by { assert forall a :: IsActive(m, a) == IsActive(s, a); }
    var found := MatchFor(m, m.tickets[t], order);
    if found.Some? && found.value in m.employees && m.employees[found.value].desk.Some?
       && !DeskBusy(m, m.employees[found.value].desk.value) {
      OpenAtDesk(m, t, found.value, Assigned, None);
    }
  }

  /** The manager's own call does not look at the desk. */
  ghost predicate CallsAtBusyDesk(s: State, user: EmployeeId, t: TicketId, status: TicketStatus) {
    && status == Called && ManagerRefusal(s, user, t, status).None? && s.tickets[t].status != Called
    && s.employees[user].desk.Some? && DeskBusy(s, s.employees[user].desk.value)
  }

  lemma CompletionAtDesk(s: State, a: AssignmentId, now: Instant)
    requires Safe(s) && OneAtDesk(s) && IsActive(s, a)
    ensures var m := Close(s, a, Completed, Available, Some(now)); References(m) && OneAtDesk(m)
  {
    CloseKeeps(s, a, Completed, Available, Some(now));
    NothingOpened(s, Close(s, a, Completed, Available, Some(now)));
  }

  lemma ManagerAtDesk(s: State, user: EmployeeId, t: TicketId, status: TicketStatus, now: Instant,
                      pick: Option<TicketId>)
    requires Safe(s) && OneAtDesk(s) && ManagerChange(s, user, t, status, now).Ok?
    requires GoodTail(ManagerChange(s, user, t, status, now).value, pick)
    ensures OneAtDesk(Tail(ManagerChange(s, user, t, status, now).value, pick)) <==>
            !CallsAtBusyDesk(s, user, t, status)
  {
    if s.tickets[t].status != status {
      if status == Called {
        OpenAtDesk(s, t, user, Called, Some(now));
      } else {
        CompletionAtDesk(s, AssignmentFor(s, t).value, now);
        TailAtDesk(ManagerChange(s, user, t, status, now).value, pick);
      }
    }
  }

  lemma TurnOpensNothing(s: State, user: EmployeeId, status: EmployeeStatus, now: Instant)
    requires References(s) && ChangeEmployeeStatus(s, user, status, now).Ok?
    ensures ChangeEmployeeStatus(s, user, status, now).value.tables.nextAssignment == s.nextAssignment
  {
  }

  lemma TurnAtDesk(s: State, user: EmployeeId, status: EmployeeStatus, now: Instant, pick: Option<TicketId>)
    requires Safe(s) && OneAtDesk(s) && !Engaged(status) && ChangeEmployeeStatus(s, user, status, now).Ok?
    requires GoodTail(ChangeEmployeeStatus(s, user, status, now).value, pick)
    ensures OneAtDesk(Tail(ChangeEmployeeStatus(s, user, status, now).value, pick))
  {
    var p := ChangeEmployeeStatus(s, user, status, now).value;
    ChangeEmployeeStatusTables(s, user, status, now);
    TurnOpensNothing(s, user, status, now);
    NothingOpened(s, p.tables);
    TailAtDesk(p, pick);
  }

  /** The transactions that hand out no ticket open no assignment. */
  predicate OpensNothing(q: DispatchStep) {
    !q.ChecksIn? && !q.ManagerSets? && !q.Turns? && !q.Dispatches?
  }

  lemma {:induction false} SweepOpensNothing(s: State, due: seq<TicketId>, now: Instant)
    requires Safe(s)
    ensures RetireAll(s, due, now).nextAssignment == s.nextAssignment
  {
    if due != [] {
      RetireAllKeeps(s, due[..|due| - 1], now);
      SweepOpensNothing(s, due[..|due| - 1], now);
    }
  }

  lemma ReleaseOpensNothing(s: State, e: EmployeeId, status: EmployeeStatus, now: Instant)
    requires References(s) && Release(s, e, status, now).Ok?
    ensures Release(s, e, status, now).value.nextAssignment == s.nextAssignment
  {
  }

  lemma VacateOpensNothing(s: State, d: DeskId, e: EmployeeId, now: Instant)
    requires References(s) && Vacate(s, d, e, now).Ok?
    ensures Vacate(s, d, e, now).value.nextAssignment == s.nextAssignment
  {
    if exists f :: SeatedAt(s, f, d) && f != e {
      var f :| SeatedAt(s, f, d) && f != e && Vacate(s, d, e, now) == Unseat(s, f, now);
      assert Unseat(s, f, now).Ok?;
      ReleaseOpensNothing(s, f, Paused, now);
    }
  }

  lemma SeatOpensNothing(s: State, e: EmployeeId, desk: Option<DeskId>, now: Instant)
    requires Safe(s) && SetDesk(s, e, desk, now).Ok?
    ensures SetDesk(s, e, desk, now).value.nextAssignment == s.nextAssignment
  {
    match desk
    case None => ReleaseOpensNothing(s, e, Paused, now);
    case Some(d) =>
      VacateOpensNothing(s, d, e, now);
      ReleaseOpensNothing(Vacate(s, d, e, now).value, e, Paused, now);
  }

  lemma QueueOpensNothing(s: State, q: DispatchStep, now: Instant)
    requires Safe(s) && Queue(s, q, now).Ok? && OpensNothing(q)
    ensures Queue(s, q, now).value.nextAssignment == s.nextAssignment
  {
    match q
    case SweepsMissed(due) => SweepOpensNothing(s, due, now);
    case Seats(e, desk) => SeatOpensNothing(s, e, desk, now);
    case Redirects(e, _) => if Release(s, e, Offline, now).Ok? { ReleaseOpensNothing(s, e, Offline, now); }
    case _ =>
  }

  lemma OthersAtDesk(s: State, q: DispatchStep, now: Instant)
    requires Safe(s) && OneAtDesk(s) && QueueLegal(s, q, now) && Queue(s, q, now).Ok? && OpensNothing(q)
    ensures OneAtDesk(Queue(s, q, now).value)
  {
    var s' := Queue(s, q, now).value;
    assert Safe(s') && Evolves(s, s') by { QueueKeeps(s, q, now); }
    QueueOpensNothing(s, q, now);
    NothingOpened(s, s');
  }

  ghost predicate PutsTwo(s: State, q: DispatchStep) {
    q.ManagerSets? && CallsAtBusyDesk(s, q.user, q.t, q.status)
  }

  /**
   * Of all transactions only the manager's call can put two assignments at a desk, and does so exactly at a busy one.
   */
  lemma QueueAtDesk(s: State, q: DispatchStep, now: Instant)
    requires Safe(s) && OneAtDesk(s) && QueueLegal(s, q, now) && Queue(s, q, now).Ok?
    ensures OneAtDesk(Queue(s, q, now).value) <==> !PutsTwo(s, q)
  {
    match q
    case ChecksIn(t, order) => CheckInAtDesk(s, t, now, order);
    case ManagerSets(user, t, status, pick) => ManagerAtDesk(s, user, t, status, now, pick);
    case Turns(user, status, pick) => TurnAtDesk(s, user, status, now, pick);
    case Dispatches(e, pick) => if pick.Some? { AssignNextAtDesk(s, e, pick); }
    case _ => OthersAtDesk(s, q, now);
  }

  lemma SameAssignments(s: State, s': State)
    requires OneAtDesk(s) && s'.assignments == s.assignments
    ensures OneAtDesk(s')
  {
    assert forall a :: IsActive(s', a) == IsActive(s, a);
  }

  lemma AdministerOpensNothing(s: State, o: OfficeStep)
    requires Administer(s, o).Ok?
    ensures Administer(s, o).value.assignments == s.assignments
  {
  }

  lemma ArrangeOpensNothing(s: State, r: Store, b: BookStep, now: Instant)
    requires Arrange(s, r, b, now).1.Ok?
    ensures Arrange(s, r, b, now).1.value.assignments == s.assignments
  {
  }

  ghost predicate NextPutsTwo(s: State, o: Occurrence) {
    o.event.OnQueue? && PutsTwo(s, o.event.q)
  }

  lemma NextAtDesk(y: System, o: Occurrence)
    requires Good(y) && Legal(y, o) && OneAtDesk(y.db)
    ensures OneAtDesk(Next(y, o).db) <==> !NextPutsTwo(y.db, o)
  {
    match o.event
    case OnQueue(q) =>
      if Queue(y.db, q, o.now).Ok? { QueueAtDesk(y.db, q, o.now); }
    case InOffice(step) =>
      if Administer(y.db, step).Ok? {
        AdministerOpensNothing(y.db, step);
        SameAssignments(y.db, Next(y, o).db);
      }
    case OnHolds(_) =>
    case AtDesk(b) =>
      if Arrange(y.db, y.redis, b, o.now).1.Ok? {
        ArrangeOpensNothing(y.db, y.redis, b, o.now);
        SameAssignments(y.db, Next(y, o).db);
      }
  }

  ghost predicate OneThroughout(y: System, run: seq<Occurrence>)
    requires Good(y) && LegalRun(y, run)
    decreases |run|
  {
    OneAtDesk(y.db) && (run == [] || (NextGood(y, run[0]); OneThroughout(Next(y, run[0]), run[1..])))
  }

  ghost predicate NoneCalledAtBusyDesk(y: System, run: seq<Occurrence>)
    requires Good(y) && LegalRun(y, run)
    decreases |run|
  {
    run == []
    || (!NextPutsTwo(y.db, run[0]) && (NextGood(y, run[0]); NoneCalledAtBusyDesk(Next(y, run[0]), run[1..])))
  }

  /**
   * No desk has two active assignments in any state of a run, exactly as long as no manager calls a ticket at a busy
   * desk.
   */
  lemma {:induction false} RunOneAtDesk(y: System, run: seq<Occurrence>)
    requires Good(y) && LegalRun(y, run) && OneAtDesk(y.db)
    ensures OneThroughout(y, run) <==> NoneCalledAtBusyDesk(y, run)
    decreases |run|
  {
    if run != [] {
      NextGood(y, run[0]);
      NextAtDesk(y, run[0]);
      if !NextPutsTwo(y.db, run[0]) { RunOneAtDesk(Next(y, run[0]), run[1..]); }
    }
  }

  /**
   * While assignments are worked at their employees' desks, the manager whose desk is busy is busy, and the call
   * refused.
   */
  lemma AgreeRefusesCall(s: State, user: EmployeeId, t: TicketId, status: TicketStatus)
    requires Safe(s) && DesksAgree(s)
    ensures !CallsAtBusyDesk(s, user, t, status)
  {
    if user in s.employees && s.employees[user].desk.Some? && DeskBusy(s, s.employees[user].desk.value) {
      var a :| IsActive(s, a) && s.assignments[a].desk == s.employees[user].desk;
      assert ActiveBy(s, a, user);
    }
  }

  /** Before anybody comes, no desk has an assignment. */
  lemma InitialDesks(y: System)
    requires Initial(y)
    ensures Good(y) && DesksAgree(y.db) && OneAtDesk(y.db)
  {
    InitialGood(y);
  }

  /**
   * In every run that deletes no desk under an employee with an assignment: no desk seats two, assignments are worked
   * at their employees' desks, and no desk has two of them.
   */
  lemma {:induction false} ReachableDesks(y: System, run: seq<Occurrence>)
    requires Good(y) && LegalRun(y, run) && DesksAgree(y.db) && SparesWorkedDesks(y, run)
    ensures var s := Run(y, run).db; Seated(s) && DesksAgree(s) && OneAtDesk(s)
    decreases |run|
  {
    if run == [] {
      AgreeIsExclusive(y.db);
    } else {
      NextGood(y, run[0]);
      NextDesksAgree(y, run[0]);
      ReachableDesks(Next(y, run[0]), run[1..]);
    }
  }
}
