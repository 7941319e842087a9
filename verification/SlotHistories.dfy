/** Appointments along whole runs: when they stay disjoint, and what is true of each in every reachable state. */
module SlotHistories {
  import opened Domain
  import opened Calendar
  import opened Holds
  import opened Tables
  import opened Dispatch
  import opened Sweeps
  import opened Booking
  import opened Office
  import opened Appointments
  import opened QueuePosition
  import opened Runs

  // ----- disjointness -----

  /** The step books or moves an appointment onto an open ticket that its check has passed over. */
  ghost predicate BooksOver(y: System, o: Occurrence)
    requires Safe(y.db)
  {
    && o.event.AtDesk? && Arrange(y.db, y.redis, o.event.b, o.now).1.Ok?
    && Overlooked(y.db, PlacingOf(y.db, o.event.b).q, PlacingOf(y.db, o.event.b).d)
  }

  lemma ArrangeDisjoint(s: State, r: Store, b: BookStep, now: Instant)
    requires References(s) && Disjoint(s) && BookLegal(s, r, b, now) && Arrange(s, r, b, now).1.Ok?
    ensures Disjoint(Arrange(s, r, b, now).1.value) <==> !Overlooked(s, PlacingOf(s, b).q, PlacingOf(s, b).d)
  {
    match b
    case Creates(f, session, id, d) =>
      var (k, after) := AfterConsume(r, session, id, f.start, now).value;
      BookDisjoint(s, Listed(after, now), f, f.person.value, Some(k.desk), now, d, Conflict);
    case WalksIn(f, d) => BookDisjoint(s, Listed(r, now), f, f.person.value, None, now, d, DatabaseError);
    case Moves(t, start, d) => RescheduleDisjoint(s, r, t, start, now, d);
  }

  lemma SameTicketsDisjoint(s: State, s': State)
    requires Disjoint(s) && s'.tickets == s.tickets
    ensures Disjoint(s')
  {
    assert forall t :: IsOpen(s', t) <==> IsOpen(s, t);
  }

  lemma NextDisjoint(y: System, o: Occurrence)
    requires Good(y) && Legal(y, o) && Disjoint(y.db)
    ensures Disjoint(Next(y, o).db) <==> !BooksOver(y, o)
  {
    match o.event
    case OnQueue(q) =>
      if Queue(y.db, q, o.now).Ok? {
        QueueKeeps(y.db, q, o.now);
        SameSlotsDisjoint(y.db, Queue(y.db, q, o.now).value);
      }
    case InOffice(step) =>
      if Administer(y.db, step).Ok? {
        AdministerPlaces(y.db, step);
        SameTicketsDisjoint(y.db, Administer(y.db, step).value);
      }
    case OnHolds(_) =>
    case AtDesk(b) =>
      if Arrange(y.db, y.redis, b, o.now).1.Ok? { ArrangeDisjoint(y.db, y.redis, b, o.now); }
  }

  ghost predicate DisjointThroughout(y: System, run: seq<Occurrence>)
    requires Good(y) && LegalRun(y, run)
    decreases |run|
  {
    Disjoint(y.db) && (run == [] || (NextGood(y, run[0]); DisjointThroughout(Next(y, run[0]), run[1..])))
  }

  ghost predicate NoneBookedOver(y: System, run: seq<Occurrence>)
    requires Good(y) && LegalRun(y, run)
    decreases |run|
  {
    run == [] || (!BooksOver(y, run[0]) && (NextGood(y, run[0]); NoneBookedOver(Next(y, run[0]), run[1..])))
  }

  /**
   * Open appointments at a desk never overlap in any state of a run, whatever holds, bookings, moves and status
   * changes come in between, exactly as long as none is placed over an open ticket that the check's filter on site and
   * country has passed over.
   */
  lemma {:induction false} RunDisjoint(y: System, run: seq<Occurrence>)
    requires Good(y) && LegalRun(y, run) && Disjoint(y.db)
    ensures DisjointThroughout(y, run) <==> NoneBookedOver(y, run)
    decreases |run|
  {
    if run != [] {
      NextGood(y, run[0]);
      NextDisjoint(y, run[0]);
      if !BooksOver(y, run[0]) { RunDisjoint(Next(y, run[0]), run[1..]); }
    }
  }

  /** Only an open ticket of the other country is ever passed over, and only at a desk that has had its own changed. */
  lemma BookedOverIsForeign(y: System, o: Occurrence, t: TicketId)
    requires Good(y) && Legal(y, o) && BooksOver(y, o)
    requires Overlooks(y.db, PlacingOf(y.db, o.event.b).q, PlacingOf(y.db, o.event.b).d, t)
    ensures y.db.tickets[t].country != Some(PlacingOf(y.db, o.event.b).q.country)
    ensures !Fitting(y.db.place, y.db.tickets[t])
  {
    var s, r, now := y.db, y.redis, o.now;
    var p := PlacingOf(s, o.event.b);
    match o.event.b
    case Creates(f, session, id, d) =>
      OverlookedIsForeign(s, Listed(AfterConsume(r, session, id, f.start, now).value.1, now), p.q, d, t);
    case WalksIn(f, d) => OverlookedIsForeign(s, Listed(r, now), p.q, d, t);
    case Moves(_, _, d) => OverlookedIsForeign(s, Listed(r, now), p.q, d, t);
  }

  // ----- every open ticket at a desk of its country -----

  ghost predicate ChangesBookedDesk(s: State, o: Occurrence) {
    && o.event.InOffice? && o.event.o.PatchesDesk?
    && UpdateDesk(s, o.event.o.d, o.event.o.patch).Ok?
    && Patched(s.place.desks[o.event.o.d], o.event.o.patch).country != s.place.desks[o.event.o.d].country
    && SlotReserved(s, o.event.o.d)
  }

  lemma NextFitting(y: System, o: Occurrence)
    requires Good(y) && Legal(y, o) && AllFitting(y.db)
    ensures AllFitting(Next(y, o).db) <==> !ChangesBookedDesk(y.db, o)
  {
    match o.event
    case OnQueue(q) =>
      if Queue(y.db, q, o.now).Ok? {
        QueueKeeps(y.db, q, o.now);
        SameSlotsFitting(y.db, Queue(y.db, q, o.now).value);
      }
    case InOffice(step) =>
      if Administer(y.db, step).Ok? {
        if step.PatchesDesk? {
          UpdateDeskFitting(y.db, step.d, step.patch);
        } else {
          AdministerPlaces(y.db, step);
          DesksKeepPlaced(y.db, Administer(y.db, step).value);
        }
      }
    case OnHolds(_) =>
    case AtDesk(b) =>
      if Arrange(y.db, y.redis, b, o.now).1.Ok? { ArrangeKeeps(y.db, y.redis, b, o.now); }
  }

  ghost predicate FittingThroughout(y: System, run: seq<Occurrence>)
    requires Good(y) && LegalRun(y, run)
    decreases |run|
  {
    AllFitting(y.db) && (run == [] || (NextGood(y, run[0]); FittingThroughout(Next(y, run[0]), run[1..])))
  }

  ghost predicate DesksKeepCountry(y: System, run: seq<Occurrence>)
    requires Good(y) && LegalRun(y, run)
    decreases |run|
  {
    run == []
    || (!ChangesBookedDesk(y.db, run[0])
        && (NextGood(y, run[0]); DesksKeepCountry(Next(y, run[0]), run[1..])))
  }

  /**
   * In every state of a run open tickets are for their desks' countries, exactly as long as no booked desk changes its
   * own.
   */
  lemma {:induction false} RunFitting(y: System, run: seq<Occurrence>)
    requires Good(y) && LegalRun(y, run) && AllFitting(y.db)
    ensures FittingThroughout(y, run) <==> DesksKeepCountry(y, run)
    decreases |run|
  {
    if run != [] {
      NextGood(y, run[0]);
      NextFitting(y, run[0]);
      if !ChangesBookedDesk(y.db, run[0]) { RunFitting(Next(y, run[0]), run[1..]); }
    }
  }

  /** Nothing is placed over a ticket while every open one is for its desk's country. */
  lemma FittingOverlooksNone(y: System, o: Occurrence)
    requires Good(y) && Legal(y, o) && AllFitting(y.db)
    ensures !BooksOver(y, o)
  {
    if BooksOver(y, o) {
      var t :| Overlooks(y.db, PlacingOf(y.db, o.event.b).q, PlacingOf(y.db, o.event.b).d, t);
      BookedOverIsForeign(y, o, t);
    }
  }

  /** As long as no booked desk changes country, appointments stay disjoint. */
  lemma {:induction false} RunSlots(y: System, run: seq<Occurrence>)
    requires Good(y) && LegalRun(y, run) && SlotsSafe(y.db) && DesksKeepCountry(y, run)
    ensures DisjointThroughout(y, run) && SlotsSafe(Run(y, run).db)
    decreases |run|
  {
    if run != [] {
      NextGood(y, run[0]);
      NextFitting(y, run[0]);
      NextDisjoint(y, run[0]);
      FittingOverlooksNone(y, run[0]);
      RunSlots(Next(y, run[0]), run[1..]);
    }
  }

  // ----- one appointment for a phone at a time -----

  predicate SamePhone(x: Ticket, y: Ticket) {
    x.phone == y.phone && x.scheduledAt.Some? && x.scheduledAt == y.scheduledAt
  }

  /** No two open tickets have the same phone and start. */
  ghost predicate PhonesUnique(s: State) {
    forall t, u | IsOpen(s, t) && IsOpen(s, u) && t != u :: !SamePhone(s.tickets[t], s.tickets[u])
  }

  /** Another open ticket has the moved ticket's phone at the new start. */
  predicate PhoneMeets(s: State, t: TicketId, start: Instant, u: TicketId) {
    && IsOpen(s, u) && u != t && t in s.tickets
    && s.tickets[u].phone == s.tickets[t].phone && s.tickets[u].scheduledAt == Some(start)
  }

  /** rescheduleTicket does not look for it. */
  ghost predicate MovesOntoPhone(y: System, o: Occurrence)
    requires Safe(y.db)
  {
    && o.event.AtDesk? && o.event.b.Moves? && Arrange(y.db, y.redis, o.event.b, o.now).1.Ok?
    && exists u :: PhoneMeets(y.db, o.event.b.t, o.event.b.start, u)
  }

  lemma SameSlotsPhones(s: State, s': State)
    requires PhonesUnique(s) && SameSlots(s, s') && TicketsEvolve(s, s')
    ensures PhonesUnique(s')
  {
    forall t, u | IsOpen(s', t) && IsOpen(s', u) && t != u ensures !SamePhone(s'.tickets[t], s'.tickets[u]) {
      SameSlotsOpen(s, s', t);
      SameSlotsOpen(s, s', u);
      assert !SamePhone(s.tickets[t], s.tickets[u]);
    }
  }

  lemma BookPhones(s: State, listed: set<Key>, f: Form, phone: string, now: Instant, d: DeskId, duplicate: Error)
    requires References(s) && PhonesUnique(s) && Book(s, listed, f, phone, now, d, duplicate).Ok?
    ensures PhonesUnique(Book(s, listed, f, phone, now, d, duplicate).value)
  {
    var s' := Book(s, listed, f, phone, now, d, duplicate).value;
    assert !PhoneTaken(s, phone, f.start);
    forall u | IsOpen(s', u) && u != s.nextTicket
      ensures IsOpen(s, u) && !SamePhone(s'.tickets[u], s'.tickets[s.nextTicket])
    {
    }
  }

  lemma MovePhones(s: State, t: TicketId, start: Instant, d: DeskId)
    requires PhonesUnique(s) && IsOpen(s, t)
    ensures PhonesUnique(MoveSlot(s, t, start, d)) <==> !exists u :: PhoneMeets(s, t, start, u)
  {
    var s' := MoveSlot(s, t, start, d);
    assert forall u :: IsOpen(s', u) <==> IsOpen(s, u);
    if u :| PhoneMeets(s, t, start, u) {
      assert IsOpen(s', u) && IsOpen(s', t) && SamePhone(s'.tickets[t], s'.tickets[u]);
    } else {
      forall u, v | IsOpen(s', u) && IsOpen(s', v) && u != v ensures !SamePhone(s'.tickets[u], s'.tickets[v]) {
        assert !PhoneMeets(s, t, start, u) && !PhoneMeets(s, t, start, v) && !SamePhone(s.tickets[u], s.tickets[v]);
      }
    }
  }

  lemma ArrangePhones(y: System, o: Occurrence)
    requires Safe(y.db) && PhonesUnique(y.db) && o.event.AtDesk? && Arrange(y.db, y.redis, o.event.b, o.now).1.Ok?
    ensures PhonesUnique(Next(y, o).db) <==> !MovesOntoPhone(y, o)
  {
    match o.event.b
    case Creates(f, session, id, d) =>
      var after := AfterConsume(y.redis, session, id, f.start, o.now).value.1;
      BookPhones(y.db, Listed(after, o.now), f, f.person.value, o.now, d, Conflict);
    case WalksIn(f, d) =>
      BookPhones(y.db, Listed(y.redis, o.now), f, f.person.value, o.now, d, DatabaseError);
    case Moves(t, start, d) => MovePhones(y.db, t, start, d);
  }

  lemma NextPhones(y: System, o: Occurrence)
    requires Good(y) && Legal(y, o) && PhonesUnique(y.db)
    ensures PhonesUnique(Next(y, o).db) <==> !MovesOntoPhone(y, o)
  {
    match o.event
    case OnQueue(q) =>
      if Queue(y.db, q, o.now).Ok? {
        QueueKeeps(y.db, q, o.now);
        SameSlotsPhones(y.db, Queue(y.db, q, o.now).value);
      }
    case InOffice(step) =>
      if Administer(y.db, step).Ok? {
        AdministerPlaces(y.db, step);
        assert forall t :: IsOpen(Next(y, o).db, t) <==> IsOpen(y.db, t);
      }
    case OnHolds(_) =>
    case AtDesk(b) => if Arrange(y.db, y.redis, b, o.now).1.Ok? { ArrangePhones(y, o); }
  }

  ghost predicate PhonesThroughout(y: System, run: seq<Occurrence>)
    requires Good(y) && LegalRun(y, run)
    decreases |run|
  {
    PhonesUnique(y.db) && (run == [] || (NextGood(y, run[0]); PhonesThroughout(Next(y, run[0]), run[1..])))
  }

  ghost predicate NoneMovedOntoPhone(y: System, run: seq<Occurrence>)
    requires Good(y) && LegalRun(y, run)
    decreases |run|
  {
    run == [] || (!MovesOntoPhone(y, run[0]) && (NextGood(y, run[0]); NoneMovedOntoPhone(Next(y, run[0]), run[1..])))
  }

  /**
   * No phone has two open appointments at one time in any state of a run, exactly as long as none is moved to a time
   * at which its phone has another.
   */
  lemma {:induction false} RunPhones(y: System, run: seq<Occurrence>)
    requires Good(y) && LegalRun(y, run) && PhonesUnique(y.db)
    ensures PhonesThroughout(y, run) <==> NoneMovedOntoPhone(y, run)
    decreases |run|
  {
    if run != [] {
      NextGood(y, run[0]);
      NextPhones(y, run[0]);
      if !MovesOntoPhone(y, run[0]) { RunPhones(Next(y, run[0]), run[1..]); }
    }
  }

  // ----- in every reachable state -----

  /** Before anybody comes, appointments are disjoint, for their desks' countries and one for a phone at a time. */
  lemma InitialSlots(y: System)
    requires Initial(y)
    ensures Good(y) && SlotsSafe(y.db) && PhonesUnique(y.db)
  {
    InitialGood(y);
  }

  /** Every ticket has a slot as long as its country's, inside working hours, at a desk of its site. */
  lemma ReachablePlaced(y: System, run: seq<Occurrence>, t: TicketId)
    requires Good(y) && LegalRun(y, run) && t in Run(y, run).db.tickets
    ensures Placed(Run(y, run).db.place, Run(y, run).db.tickets[t])
  {
    RunSafe(y, run);
  }

  /** The public list agrees with the booking check in every reachable state. */
  lemma ReachableList(y: System, run: seq<Occurrence>, site: SiteId, country: Country, day: int, minute: int,
                      exclude: Option<TicketId>, now: Instant)
    requires Good(y) && LegalRun(y, run) && OnGrid(country, minute) && !Weekend(day) && now < At(day, minute)
    ensures var s, listed := Run(y, run).db, Listed(Run(y, run).redis, now);
            var q := GridRequest(site, country, day, minute, exclude);
            DayOpen(s, listed, q, day) <==> SlotError(s, listed, q, now).None?
  {
    RunSafe(y, run);
    ListAgreesWithCheck(Run(y, run).db, Listed(Run(y, run).redis, now), site, country, day, minute, exclude, now);
  }

  /** The position shown is the place in line in every reachable state, up to peers with the same priority and slot. */
  lemma ReachablePosition(y: System, run: seq<Occurrence>, t: TicketId, line: seq<TicketId>, rank: nat)
    requires Good(y) && LegalRun(y, run) && Line(Run(y, run).db, t, line) && rank < |line| && line[rank] == t
    ensures var s := Run(y, run).db; Position(s, t) - 1 <= rank <= Position(s, t) - 1 + |Tied(s, t)|
  {
    RunSafe(y, run);
    var s := Run(y, run).db;
    assert SlottedPeers(s, t) by { assert forall p | Peer(s, t, p) :: Placed(s.place, s.tickets[p]); }
    PositionIsRank(s, t, line, rank);
  }

  /** In every reachable state a ticket that came back is taken only if no checked-in one is in the same pass. */
  lemma ReachableOrder(y: System, run: seq<Occurrence>, e: EmployeeId, t: TicketId, u: TicketId)
    requires Good(y) && LegalRun(y, run)
    requires var s := Run(y, run).db;
             && FirstInOrder(s, e, t) && s.tickets[t].status == Requeued && Eligible(s, e, u)
             && (EligibleOwn(s, e, u) || forall v :: !EligibleOwn(s, e, v))
    ensures Run(y, run).db.tickets[u].status == Requeued
  {
    RunSafe(y, run);
    assert Placed(Run(y, run).db.place, Run(y, run).db.tickets[u]);
    CheckedInFirst(Run(y, run).db, e, t, u);
  }
}
