/**
 * The whole system: the database, the holds and the clock, every transaction as one atomic step, and what holds
 * in every state a run can reach. Choosing a desk for a hold and taking the hold are separate steps: the first
 * changes nothing, and the second may use a choice that is out of date.
 */
module Runs {
  import opened Domain
  import opened QueueRules
  import opened Holds
  import opened Tables
  import opened Dispatch
  import opened Sweeps
  import opened Booking
  import opened Office
  import opened Appointments

  datatype System = System(db: State, redis: Store, clock: Instant)

  datatype DispatchStep =
    | ChecksIn(t: TicketId, order: seq<EmployeeId>)
    | MissesBooking(t: TicketId)
    | Cancels(t: TicketId)
    | ManagerSets(user: EmployeeId, t: TicketId, status: TicketStatus, pick: Option<TicketId>)
    | Acts(user: EmployeeId, a: AssignmentId, action: Action)
    | Turns(user: EmployeeId, turned: EmployeeStatus, pick: Option<TicketId>)
    | Redirects(e: EmployeeId, country: Country)
    | Seats(e: EmployeeId, desk: Option<DeskId>)
    | Dispatches(e: EmployeeId, pick: Option<TicketId>)
    | CallsExpire(a: AssignmentId)
    | SweepsMissed(due: seq<TicketId>)
    | Purges(ids: set<TicketId>)

  datatype OfficeStep =
    | Ensures(e: EmployeeId, role: Role, first: Option<SiteId>)
    | AddsDesk(rank: nat, site: SiteId, country: Country)
    | PatchesDesk(d: DeskId, patch: DeskPatch)
    | DropsDesk(d: DeskId)
    | Blocks(row: BlockedSlot)
    | Unblocks(b: BlockId)

  datatype HoldStep =
    | Holds(session: SessionId, k: Key, id: HoldId, ttl: int)
    | Refreshes(session: SessionId, id: HoldId)
    | Lists

  datatype BookStep =
    | Creates(f: Form, session: SessionId, id: HoldId, d: DeskId)
    | WalksIn(f: Form, d: DeskId)
    | Moves(t: TicketId, start: Instant, d: DeskId)

  datatype Event = OnQueue(q: DispatchStep) | InOffice(o: OfficeStep) | OnHolds(h: HoldStep) | AtDesk(b: BookStep)

  // An event happens at an instant.
  datatype Occurrence = Happens(now: Instant, event: Event)

  // ----- one step -----

  ghost function Queue(s: State, q: DispatchStep, now: Instant): Result<State>
    requires Safe(s)
  {
    match q
    case ChecksIn(t, order) => CheckIn(s, t, now, order)
    case MissesBooking(t) => MarkNoShow(s, t, now)
    case Cancels(t) => Cancel(s, t)
    case ManagerSets(user, t, status, pick) =>
      (match ManagerChange(s, user, t, status, now) case Err(error) => Err(error) case Ok(p) => Ok(Tail(p, pick)))
    case Acts(user, a, action) => Act(s, user, a, action, now)
    case Turns(user, status, pick) =>
      (match ChangeEmployeeStatus(s, user, status, now) case Err(error) => Err(error) case Ok(p) => Ok(Tail(p, pick)))
    case Redirects(e, country) => SetCountry(s, e, country, now)
    case Seats(e, desk) => SetDesk(s, e, desk, now)
    case Dispatches(e, pick) => Ok(AssignNext(s, e, pick))
    case CallsExpire(a) => Ok(ExpireCall(s, a))
    case SweepsMissed(due) => Ok(RetireAll(s, due, now))
    case Purges(ids) => Ok(Purge(s, ids))
  }

  /**
   * The parameters are answers the database may give, and the status one a request may carry. The two sweeps query
   * before they open their transactions, so their answers may be out of date.
   */
  ghost predicate QueueLegal(s: State, q: DispatchStep, now: Instant)
    requires Safe(s)
  {
    match q
    case ChecksIn(t, order) =>
      t in s.tickets ==>
        var row := s.tickets[t].(status := CheckedIn, priority := 1, checkedInAt := Some(now));
        AvailableInOrder(SetTicket(s, t, row), order)
    case ManagerSets(user, t, status, pick) =>
      ManagerChange(s, user, t, status, now).Ok? ==> GoodTail(ManagerChange(s, user, t, status, now).value, pick)
    case Turns(user, status, pick) =>
      (status == Available || status == Paused || status == Offline)
      && (ChangeEmployeeStatus(s, user, status, now).Ok? ==>
            GoodTail(ChangeEmployeeStatus(s, user, status, now).value, pick))
    case Dispatches(e, pick) => GoodDispatch(s, e, pick)
    case CallsExpire(a) => CallExpired(s, a, now) || ExpireCall(s, a) == s
    case SweepsMissed(due) => |due| <= SWEEP_LIMIT
    case Purges(ids) => |ids| <= 500 && forall t | t in ids :: t in s.tickets && Terminal(s.tickets[t].status)
    case _ => true
  }

  ghost function Administer(s: State, o: OfficeStep): Result<State> {
    match o
    case Ensures(e, role, site) => EnsureEmployee(s, e, role, site)
    case AddsDesk(rank, site, country) => CreateDesk(s, rank, site, country)
    case PatchesDesk(d, patch) => UpdateDesk(s, d, patch)
    case DropsDesk(d) => DeleteDesk(s, d)
    case Blocks(row) =>
      Ok(s.(place := s.place.(blocks := s.place.blocks[s.place.nextBlock := row], nextBlock := s.place.nextBlock + 1)))
    case Unblocks(b) => Ok(s.(place := s.place.(blocks := s.place.blocks - {b})))
  }

  function Keep(r: Store, h: HoldStep, now: Instant): Store {
    match h
    case Holds(session, k, id, ttl) => HoldSlot(r, session, k, id, ttl, now).0
    case Refreshes(session, id) => RefreshHold(r, session, id, now).0
    case Lists => Prune(r, now)
  }

  predicate HoldLegal(r: Store, h: HoldStep, now: Instant) {
    h.Holds? && LiveHold(r, h.k, now) ==> TtlReading(r, h.k, h.ttl, now)
  }

  ghost function Arrange(s: State, r: Store, b: BookStep, now: Instant): (Store, Result<State>) {
    match b
    case Creates(f, session, id, d) => CreateTicket(s, r, f, session, id, now, d)
    case WalksIn(f, d) => (r, WalkIn(s, r, f, now, d))
    case Moves(t, start, d) => (r, Reschedule(s, r, t, start, now, d))
  }

  ghost predicate BookLegal(s: State, r: Store, b: BookStep, now: Instant) {
    match b
    case Creates(f, session, id, d) =>
      (match AfterConsume(r, session, id, f.start, now)
       case None => true
       case Some(held) => GoodBooking(s, Listed(held.1, now), f, Some(held.0.desk), now, d))
    case WalksIn(f, d) => GoodBooking(s, Listed(r, now), f, None, now, d)
    case Moves(t, start, d) =>
      Reschedule(s, r, t, start, now, d).Ok? ==> GoodDesk(s, Listed(r, now), MoveRequest(s, t, start), None, d)
  }

  /** What a step on the appointments asks for, and on which desk it is placed. */
  datatype Placing = Placing(q: Request, d: DeskId)

  function PlacingOf(s: State, b: BookStep): Placing
    requires b.Moves? ==> b.t in s.tickets && s.tickets[b.t].country.Some?
  {
    match b
    case Creates(f, _, _, d) => Placing(RequestOf(f), d)
    case WalksIn(f, d) => Placing(RequestOf(f), d)
    case Moves(t, start, d) => Placing(MoveRequest(s, t, start), d)
  }

  /** A refused transaction leaves the database as it was. */
  function Settle(s: State, outcome: Result<State>): State {
    if outcome.Ok? then outcome.value else s
  }

  ghost predicate Good(y: System) {
    Safe(y.db) && DesksIssued(y.db) && AllPlaced(y.db) && InSync(y.redis, y.clock)
  }

  ghost function Next(y: System, o: Occurrence): System
    requires Safe(y.db)
  {
    match o.event
    case OnQueue(q) => System(Settle(y.db, Queue(y.db, q, o.now)), y.redis, o.now)
    case InOffice(step) => System(Settle(y.db, Administer(y.db, step)), y.redis, o.now)
    case OnHolds(h) => System(y.db, Keep(y.redis, h, o.now), o.now)
    case AtDesk(b) => var (r, outcome) := Arrange(y.db, y.redis, b, o.now); System(Settle(y.db, outcome), r, o.now)
  }

  /** The parameters are possible answers, and a hold is for a desk that was once created. */
  ghost predicate Legal(y: System, o: Occurrence)
    requires Safe(y.db)
  {
    && y.clock <= o.now
    && match o.event
       case OnQueue(q) => QueueLegal(y.db, q, o.now)
       case InOffice(step) => step.Ensures? ==> GoodSite(y.db, step.first)
       case OnHolds(h) => HoldLegal(y.redis, h, o.now) && (h.Holds? ==> h.k.desk < y.db.place.nextDesk)
       case AtDesk(b) => BookLegal(y.db, y.redis, b, o.now)
  }

  // ----- every step keeps the invariant -----

  lemma QueueKeeps(s: State, q: DispatchStep, now: Instant)
    requires Safe(s) && QueueLegal(s, q, now) && Queue(s, q, now).Ok?
    ensures Advances(s, Queue(s, q, now).value)
    ensures !q.Purges? ==> Steps(s, Queue(s, q, now).value)
  {
    match q
    case ChecksIn(t, order) => CheckInKeeps(s, t, now, order);
    case MissesBooking(t) => MarkNoShowKeeps(s, t, now);
    case Cancels(t) => CancelKeeps(s, t);
    case ManagerSets(user, t, status, pick) => ManagerChangeKeeps(s, user, t, status, now, pick);
    case Acts(user, a, action) => ActKeeps(s, user, a, action, now);
    case Turns(user, status, pick) => ChangeEmployeeStatusKeeps(s, user, status, now, pick);
    case Redirects(e, country) => SetCountryKeeps(s, e, country, now);
    case Seats(e, desk) => SetDeskKeeps(s, e, desk, now);
    case Dispatches(e, pick) => DispatchKeeps(s, e, pick);
    case CallsExpire(a) => ExpireCallKeeps(s, a);
    case SweepsMissed(due) => RetireAllKeeps(s, due, now);
    case Purges(ids) => PurgeKeeps(s, ids);
  }

  /** What every step keeps; `DropsDesk` alone takes a seat from under an assignment. */
  ghost predicate Sound(s: State, s': State, seatsKept: bool) {
    && Safe(s') && Evolves(s, s') && DesksIssued(s') && (seatsKept && DesksAgree(s) ==> DesksAgree(s'))
    && (AllPlaced(s) ==> AllPlaced(s'))
  }

  // Desks are only ever added under new identifiers, and a desk tickets refer to stays at its site.
  lemma AdministerPlaces(s: State, o: OfficeStep)
    requires DesksIssued(s) && Administer(s, o).Ok?
    ensures var s' := Administer(s, o).value;
            && DesksIssued(s') && s'.tickets == s.tickets && BookedDesksStay(s, s')
            && (!o.PatchesDesk? ==> BookedDesksKeepCountry(s, s'))
            && s.place.nextDesk <= s'.place.nextDesk
  {
  }

  lemma AdministerKeeps(s: State, o: OfficeStep)
    requires Safe(s) && DesksIssued(s) && Administer(s, o).Ok?
    ensures Sound(s, Administer(s, o).value, !o.DropsDesk?)
  {
    var s' := Administer(s, o).value;
    AdministerPlaces(s, o);
    if AllPlaced(s) { DesksKeepPlaced(s, s'); }
    match o
    case Ensures(e, role, site) => EnsureEmployeeKeeps(s, e, role, site);
    case DropsDesk(d) => DeleteDeskKeeps(s, d);
    case _ =>
      assert s' == s.(place := s'.place);
      PlaceIrrelevant(s, s'.place);
  }

  /** Booking steps leave the holds in step whatever their outcome. */
  lemma ArrangeInSync(s: State, r: Store, b: BookStep, now: Instant)
    requires InSync(r, now)
    ensures InSync(Arrange(s, r, b, now).0, now) && (Exact(r, now) ==> Exact(Arrange(s, r, b, now).0, now))
  {
    if b.Creates? && AfterConsume(r, b.session, b.id, b.f.start, now).Some? {
      ConsumeHoldKeeps(r, b.session, b.id, AfterConsume(r, b.session, b.id, b.f.start, now).value.0, now);
    }
  }

  lemma CreatesKeeps(s: State, r: Store, b: BookStep, now: Instant)
    requires b.Creates? && Safe(s) && DesksIssued(s) && BookLegal(s, r, b, now) && Arrange(s, r, b, now).1.Ok?
    ensures var s' := Arrange(s, r, b, now).1.value; Sound(s, s', true) && (AllFitting(s) ==> AllFitting(s'))
  {
    var (k, after) := AfterConsume(r, b.session, b.id, b.f.start, now).value;
    BookKeeps(s, Listed(after, now), b.f, b.f.person.value, Some(k.desk), now, b.d, Conflict);
  }

  lemma WalksInKeeps(s: State, r: Store, b: BookStep, now: Instant)
    requires b.WalksIn? && Safe(s) && DesksIssued(s) && BookLegal(s, r, b, now) && Arrange(s, r, b, now).1.Ok?
    ensures var s' := Arrange(s, r, b, now).1.value; Sound(s, s', true) && (AllFitting(s) ==> AllFitting(s'))
  {
    BookKeeps(s, Listed(r, now), b.f, b.f.person.value, None, now, b.d, DatabaseError);
  }

  lemma MovesKeeps(s: State, r: Store, b: BookStep, now: Instant)
    requires b.Moves? && Safe(s) && DesksIssued(s) && BookLegal(s, r, b, now) && Arrange(s, r, b, now).1.Ok?
    ensures var s' := Arrange(s, r, b, now).1.value;
            Sound(s, s', true) && (AllPlaced(s) && AllFitting(s) ==> AllFitting(s'))
  {
    RescheduleKeeps(s, r, b.t, b.start, now, b.d);
  }

  lemma ArrangeKeeps(s: State, r: Store, b: BookStep, now: Instant)
    requires Safe(s) && DesksIssued(s) && BookLegal(s, r, b, now) && Arrange(s, r, b, now).1.Ok?
    ensures var s' := Arrange(s, r, b, now).1.value;
            Sound(s, s', true) && (AllPlaced(s) && AllFitting(s) ==> AllFitting(s'))
  {
    match b
    case Creates(_, _, _, _) => CreatesKeeps(s, r, b, now);
    case WalksIn(_, _) => WalksInKeeps(s, r, b, now);
    case Moves(_, _, _) => MovesKeeps(s, r, b, now);
  }

  lemma HoldStepKeeps(r: Store, h: HoldStep, now: Instant)
    requires InSync(r, now) && HoldLegal(r, h, now)
    ensures InSync(Keep(r, h, now), now)
  {
    match h
    case Holds(session, k, id, ttl) => HoldSlotKeeps(r, session, k, id, ttl, now);
    case Refreshes(session, id) => RefreshHoldKeeps(r, session, id, now);
    case Lists => PruneKeeps(r, now);
  }

  lemma NextInSync(y: System, o: Occurrence)
    requires Good(y) && Legal(y, o)
    ensures InSync(Next(y, o).redis, o.now)
  {
    Later(y.redis, y.clock, o.now);
    match o.event
    case OnHolds(h) => HoldStepKeeps(y.redis, h, o.now);
    case AtDesk(b) => ArrangeInSync(y.db, y.redis, b, o.now);
    case _ =>
  }

  predicate DropsADesk(o: Occurrence) {
    o.event.InOffice? && o.event.o.DropsDesk?
  }

  lemma NextSound(y: System, o: Occurrence)
    requires Good(y) && Legal(y, o)
    ensures Sound(y.db, Next(y, o).db, !DropsADesk(o))
  {
    StepsReflexive(y.db);
    match o.event
    case OnQueue(q) =>
      if Queue(y.db, q, o.now).Ok? {
        QueueKeeps(y.db, q, o.now);
        SameSlotsPlaced(y.db, Queue(y.db, q, o.now).value);
      }
    case InOffice(step) => if Administer(y.db, step).Ok? { AdministerKeeps(y.db, step); }
    case OnHolds(_) =>
    case AtDesk(b) => if Arrange(y.db, y.redis, b, o.now).1.Ok? { ArrangeKeeps(y.db, y.redis, b, o.now); }
  }

  lemma NextGood(y: System, o: Occurrence)
    requires Good(y) && Legal(y, o)
    ensures Good(Next(y, o)) && Evolves(y.db, Next(y, o).db)
    ensures DesksAgree(y.db) && !DropsADesk(o) ==> DesksAgree(Next(y, o).db)
  {
    NextInSync(y, o);
    NextSound(y, o);
  }

  // ----- runs -----

  ghost predicate LegalRun(y: System, run: seq<Occurrence>)
    requires Good(y)
    decreases |run|
  {
    run == [] || (Legal(y, run[0]) && (NextGood(y, run[0]); LegalRun(Next(y, run[0]), run[1..])))
  }

  ghost function Run(y: System, run: seq<Occurrence>): System
    requires Good(y) && LegalRun(y, run)
    decreases |run|
  {
    if run == [] then y else (NextGood(y, run[0]); Run(Next(y, run[0]), run[1..]))
  }

  /** Before anybody comes: no tickets, no staff, no desks, no holds. */
  predicate Initial(y: System) {
    && y.db.tickets == map[] && y.db.employees == map[] && y.db.assignments == map[]
    && y.db.place.desks == map[] && y.redis == EMPTY_STORE && 0 <= y.clock
  }

  lemma InitialGood(y: System)
    requires Initial(y)
    ensures Good(y) && DesksAgree(y.db) && SlotsSafe(y.db) && Exact(y.redis, y.clock)
  {
  }

  /** In every reachable state the tables are consistent and the holds in step, and no run goes backwards. */
  lemma {:induction false} RunSafe(y: System, run: seq<Occurrence>)
    requires Good(y) && LegalRun(y, run)
    ensures Good(Run(y, run)) && Evolves(y.db, Run(y, run).db)
    decreases |run|
  {
    if run == [] {
      StepsReflexive(y.db);
    } else {
      NextGood(y, run[0]);
      var m := Next(y, run[0]);
      RunSafe(m, run[1..]);
      EvolvesTransitive(y.db, m.db, Run(y, run).db);
    }
  }
}
