/**
 * Which desk is free for an appointment, and why bookings made by these checks never collide. `listed` is the
 * answer of listHolds at the time of the check.
 */
module Booking {
  import opened Domain
  import opened Calendar
  import opened Holds
  import opened Tables

  /** What is asked for: a start at a site for a country, possibly on behalf of a ticket that moves. */
  datatype Request = Request(site: SiteId, country: Country, start: Instant, minutes: nat, exclude: Option<TicketId>)

  // ----- what makes a desk unavailable -----

  predicate TicketBlocks(s: State, q: Request, d: DeskId, t: TicketId) {
    && t in s.tickets && q.exclude != Some(t)
    && var row := s.tickets[t];
       && row.site == q.site && row.country == Some(q.country) && SlotHolding(row.status)
       && row.scheduledAt.Some? && row.reservedDesk == Some(d)
       && Overlap(q.start, End(q.start, q.minutes), row.scheduledAt.value, End(row.scheduledAt.value, row.duration))
  }

  // Every hold is measured with the caller's length, at least a minute.
  predicate HoldBlocks(q: Request, d: DeskId, k: Key) {
    && k.desk == d
    && Overlap(q.start, End(q.start, q.minutes), k.time, End(k.time, if q.minutes < 1 then 1 else q.minutes))
  }

  predicate BlockBlocks(s: State, q: Request, d: DeskId, b: BlockId) {
    && b in s.place.blocks
    && var row := s.place.blocks[b];
       && row.site == q.site && row.day == DayOf(q.start)
       && Overlap(q.start, End(q.start, q.minutes), At(row.day, row.from), At(row.day, row.until))
       && row.employee in s.employees && s.employees[row.employee].desk == Some(d)
  }

  predicate Candidate(s: State, q: Request, d: DeskId) {
    && d in s.place.desks && s.place.desks[d].site == q.site
    && s.place.desks[d].active && s.place.desks[d].country == q.country
  }

  ghost predicate DeskFree(s: State, listed: set<Key>, q: Request, d: DeskId) {
    && Candidate(s, q, d)
    && (forall t :: !TicketBlocks(s, q, d, t))
    && (forall k | k in listed :: !HoldBlocks(q, d, k))
    && (forall b :: !BlockBlocks(s, q, d, b))
  }

  ghost predicate SlotFree(s: State, listed: set<Key>, q: Request) {
    exists d :: DeskFree(s, listed, q, d)
  }

  /** assertSlotAvailable: the error it throws, or none. */
  ghost function SlotError(s: State, listed: set<Key>, q: Request, now: Instant): Option<Error> {
    if !InWorkday(q.start, q.minutes) then Some(BadRequest)
    else if q.start <= now then Some(BadRequest)
    else if !SlotFree(s, listed, q) then Some(Conflict)
    else None
  }

  /** reserveDesk: the preferred desk if it is free, otherwise a first free one by label. */
  ghost predicate GoodDesk(s: State, listed: set<Key>, q: Request, preferred: Option<DeskId>, d: DeskId) {
    && DeskFree(s, listed, q, d)
    && (if preferred.Some? && DeskFree(s, listed, q, preferred.value) then d == preferred.value
        else forall f | DeskFree(s, listed, q, f) :: s.place.desks[d].rank <= s.place.desks[f].rank)
  }

  // ----- what bookings satisfy -----

  /**
   * What a ticket is from the day it is made: as long as its country's slots, in working hours, at a desk of its site.
   */
  predicate Placed(place: Premises, row: Ticket) {
    && row.scheduledAt.Some? && row.country.Some? && row.reservedDesk.Some?
    && row.reservedDesk.value in place.desks && place.desks[row.reservedDesk.value].site == row.site
    && row.duration == SlotDuration(row.country.value)
    && InWorkday(row.scheduledAt.value, row.duration)
  }

  /** And what it is until its desk is given another country. */
  predicate Fitting(place: Premises, row: Ticket) {
    Placed(place, row) && place.desks[row.reservedDesk.value].country == row.country.value
  }

  predicate Collide(x: Ticket, y: Ticket) {
    && x.reservedDesk.Some? && x.reservedDesk == y.reservedDesk
    && x.scheduledAt.Some? && y.scheduledAt.Some?
    && Overlap(x.scheduledAt.value, End(x.scheduledAt.value, x.duration),
               y.scheduledAt.value, End(y.scheduledAt.value, y.duration))
  }

  predicate IsOpen(s: State, t: TicketId) {
    t in s.tickets && SlotHolding(s.tickets[t].status)
  }

  /** Open appointments at one desk never overlap. */
  ghost predicate Disjoint(s: State) {
    forall t, u | IsOpen(s, t) && IsOpen(s, u) && t != u :: !Collide(s.tickets[t], s.tickets[u])
  }

  ghost predicate AllPlaced(s: State) {
    forall t | t in s.tickets :: Placed(s.place, s.tickets[t])
  }

  ghost predicate AllFitting(s: State) {
    forall t | IsOpen(s, t) :: Fitting(s.place, s.tickets[t])
  }

  /** Open appointments never overlap, and each is for its desk's country. */
  ghost predicate SlotsSafe(s: State) {
    AllFitting(s) && Disjoint(s)
  }

  /** Disjoint appointments satisfy the database's unique index on desk and start. */
  lemma DisjointIsUnique(s: State, t: TicketId, u: TicketId)
    requires AllPlaced(s) && Disjoint(s) && IsOpen(s, t) && IsOpen(s, u) && t != u
    ensures s.tickets[t].reservedDesk != s.tickets[u].reservedDesk
            || s.tickets[t].scheduledAt != s.tickets[u].scheduledAt
  {
    assert Placed(s.place, s.tickets[t]) && Placed(s.place, s.tickets[u]);
    assert !Collide(s.tickets[t], s.tickets[u]);
  }

  // A ticket that is open after the step was open before, in the same slot.
  lemma SameSlotsOpen(s: State, s': State, t: TicketId)
    requires SameSlots(s, s') && TicketsEvolve(s, s') && IsOpen(s', t)
    ensures IsOpen(s, t) && SameSlot(s.tickets[t], s'.tickets[t])
  {
    assert MayBecome(s.tickets[t].status, s'.tickets[t].status);
  }

  /** A step that leaves bookings alone cannot make them collide: closed tickets stay closed. */
  lemma SameSlotsDisjoint(s: State, s': State)
    requires Disjoint(s) && SameSlots(s, s') && TicketsEvolve(s, s')
    ensures Disjoint(s')
  {
    forall t, u | IsOpen(s', t) && IsOpen(s', u) && t != u ensures !Collide(s'.tickets[t], s'.tickets[u]) {
      SameSlotsOpen(s, s', t);
      SameSlotsOpen(s, s', u);
      assert !Collide(s.tickets[t], s.tickets[u]);
    }
  }

  lemma SameSlotsFitting(s: State, s': State)
    requires AllFitting(s) && SameSlots(s, s') && TicketsEvolve(s, s')
    ensures AllFitting(s')
  {
    forall t | IsOpen(s', t) ensures Fitting(s'.place, s'.tickets[t]) { SameSlotsOpen(s, s', t); }
  }

  lemma SameSlotsPlaced(s: State, s': State)
    requires AllPlaced(s) && SameSlots(s, s')
    ensures AllPlaced(s')
  {
    assert forall t | t in s'.tickets :: Placed(s.place, s.tickets[t]) && SameSlot(s.tickets[t], s'.tickets[t]);
  }

  // ----- what the check cannot see -----

  /** An open ticket in the way that the check passes over, because it is for another site or country. */
  predicate Overlooks(s: State, q: Request, d: DeskId, t: TicketId) {
    && IsOpen(s, t) && q.exclude != Some(t)
    && var row := s.tickets[t];
       && (row.site != q.site || row.country != Some(q.country))
       && row.scheduledAt.Some? && row.reservedDesk == Some(d)
       && Overlap(q.start, End(q.start, q.minutes), row.scheduledAt.value, End(row.scheduledAt.value, row.duration))
  }

  ghost predicate Overlooked(s: State, q: Request, d: DeskId) {
    exists t :: Overlooks(s, q, d, t)
  }

  /** While every open ticket is for its desk's country, nothing is passed over. */
  lemma NothingOverlooked(s: State, listed: set<Key>, q: Request, d: DeskId)
    requires AllFitting(s) && DeskFree(s, listed, q, d)
    ensures !Overlooked(s, q, d)
  {
    assert forall t | IsOpen(s, t) :: Fitting(s.place, s.tickets[t]);
  }

  /** Only a ticket of the other country can be passed over, as a desk never changes its site. */
  lemma OverlookedIsForeign(s: State, listed: set<Key>, q: Request, d: DeskId, t: TicketId)
    requires AllPlaced(s) && DeskFree(s, listed, q, d) && Overlooks(s, q, d, t)
    ensures s.tickets[t].country != Some(q.country)
  {
    assert Placed(s.place, s.tickets[t]);
  }

  /** On a free desk the appointment collides with an open ticket exactly when the check passes that ticket over. */
  lemma FreeDeskCollides(s: State, listed: set<Key>, q: Request, d: DeskId, row: Ticket, u: TicketId)
    requires DeskFree(s, listed, q, d) && IsOpen(s, u) && q.exclude != Some(u)
    requires row.reservedDesk == Some(d) && row.scheduledAt == Some(q.start) && row.duration == q.minutes
    ensures Collide(row, s.tickets[u]) <==> Overlooks(s, q, d, u)
    ensures Collide(s.tickets[u], row) <==> Overlooks(s, q, d, u)
  {
    assert !TicketBlocks(s, q, d, u);
  }

  // ----- the unique index on desk and start -----

  predicate TakesPair(s: State, d: DeskId, start: Instant, except: Option<TicketId>, t: TicketId) {
    IsOpen(s, t) && except != Some(t) && s.tickets[t].reservedDesk == Some(d) && s.tickets[t].scheduledAt == Some(start)
  }

  /** The index refuses the pair. */
  ghost predicate PairTaken(s: State, d: DeskId, start: Instant, except: Option<TicketId>) {
    exists t :: TakesPair(s, d, start, except, t)
  }

  /** On a free desk the index can only catch a ticket the check has passed over. */
  lemma IndexCatchesOverlooked(s: State, listed: set<Key>, q: Request, d: DeskId, t: TicketId)
    requires AllPlaced(s) && DeskFree(s, listed, q, d) && q.minutes > 0 && TakesPair(s, d, q.start, q.exclude, t)
    ensures Overlooks(s, q, d, t)
  {
    assert Placed(s.place, s.tickets[t]) && !TicketBlocks(s, q, d, t);
  }

  /** While every open ticket is for its desk's country, the index never fires. */
  lemma IndexNeverFires(s: State, listed: set<Key>, q: Request, d: DeskId)
    requires AllPlaced(s) && AllFitting(s) && DeskFree(s, listed, q, d) && q.minutes > 0
    ensures !PairTaken(s, d, q.start, q.exclude)
  {
    if t :| TakesPair(s, d, q.start, q.exclude, t) {
      IndexCatchesOverlooked(s, listed, q, d, t);
      NothingOverlooked(s, listed, q, d);
    }
  }

  /**
   * A hold on a candidate desk is for the desk's country, so its real length is the one the check measures it with:
   * the placed appointment overlaps no listed hold.
   */
  lemma PlacedClearOfHolds(s: State, listed: set<Key>, q: Request, d: DeskId, k: Key)
    requires DeskFree(s, listed, q, d) && q.minutes == SlotDuration(q.country)
    requires k in listed && k.desk == d
    ensures !Overlap(q.start, End(q.start, q.minutes), k.time, End(k.time, SlotDuration(s.place.desks[d].country)))
  {
    assert !HoldBlocks(q, d, k);
  }

  // ----- placing -----

  function NewTicket(q: Request, service: ServiceId, phone: string, d: DeskId, now: Instant): Ticket {
    Ticket(Booked, 0, 0, q.site, service, Some(q.country), phone, Some(q.start), None, q.minutes, Some(d), now)
  }

  function Place(s: State, row: Ticket): State {
    s.(tickets := s.tickets[s.nextTicket := row], nextTicket := s.nextTicket + 1)
  }

  function MoveSlot(s: State, t: TicketId, start: Instant, d: DeskId): State
    requires t in s.tickets
  {
    SetTicket(s, t, s.tickets[t].(scheduledAt := Some(start), reservedDesk := Some(d)))
  }

  lemma PlaceEvolves(s: State, row: Ticket)
    requires References(s)
    ensures var s' := Place(s, row); Evolves(s, s') && (DesksAgree(s) ==> DesksAgree(s'))
  {
  }

  lemma PlaceTickets(s: State, row: Ticket)
    requires References(s) && TicketsFit(s) && row.status == Booked
    ensures TicketsFit(Place(s, row))
  {
    var s' := Place(s, row);
    assert forall a, u :: ActiveFor(s', a, u) == ActiveFor(s, a, u);
    assert forall a, u :: ServedBy(s', a, u) == ServedBy(s, a, u);
  }

  lemma PlaceAssignments(s: State, row: Ticket)
    requires References(s) && AssignmentsFit(s)
    ensures References(Place(s, row)) && AssignmentsFit(Place(s, row))
  {
    var s' := Place(s, row);
    forall a | IsActive(s', a) ensures s'.tickets[s'.assignments[a].ticket] == s.tickets[s.assignments[a].ticket] {
      assert IsActive(s, a);
    }
  }

  lemma PlaceEmployees(s: State, row: Ticket)
    requires EmployeesFit(s) && Exclusive(s) && Seated(s)
    ensures EmployeesFit(Place(s, row)) && Exclusive(Place(s, row)) && Seated(Place(s, row))
  {
    var s' := Place(s, row);
    assert forall a, e :: ActiveBy(s', a, e) == ActiveBy(s, a, e);
  }

  lemma PlaceSafe(s: State, row: Ticket)
    requires Safe(s) && row.status == Booked
    ensures var s' := Place(s, row); Safe(s') && Evolves(s, s') && (DesksAgree(s) ==> DesksAgree(s'))
  {
    PlaceAssignments(s, row);
    PlaceTickets(s, row);
    PlaceEmployees(s, row);
    PlaceEvolves(s, row);
  }

  /** A new appointment on a free desk keeps appointments disjoint exactly when the check has passed none over. */
  lemma PlaceDisjoint(s: State, listed: set<Key>, q: Request, service: ServiceId, phone: string, d: DeskId,
                      now: Instant)
    requires References(s) && Disjoint(s) && DeskFree(s, listed, q, d) && q.exclude.None?
    ensures Disjoint(Place(s, NewTicket(q, service, phone, d, now))) <==> !Overlooked(s, q, d)
  {
    var row := NewTicket(q, service, phone, d, now);
    var s' := Place(s, row);
    assert forall u | IsOpen(s', u) && u != s.nextTicket :: IsOpen(s, u);
    forall u | IsOpen(s, u)
      ensures (Collide(row, s.tickets[u]) <==> Overlooks(s, q, d, u))
      ensures (Collide(s.tickets[u], row) <==> Overlooks(s, q, d, u))
    {
      FreeDeskCollides(s, listed, q, d, row, u);
    }
    if u :| Overlooks(s, q, d, u) {
      assert IsOpen(s', u) && IsOpen(s', s.nextTicket) && Collide(s'.tickets[s.nextTicket], s'.tickets[u]);
    }
  }

  lemma PlacePlaced(s: State, listed: set<Key>, q: Request, service: ServiceId, phone: string, d: DeskId, now: Instant)
    requires DeskFree(s, listed, q, d) && q.minutes == SlotDuration(q.country) && InWorkday(q.start, q.minutes)
    ensures Fitting(s.place, NewTicket(q, service, phone, d, now))
    ensures AllPlaced(s) ==> AllPlaced(Place(s, NewTicket(q, service, phone, d, now)))
    ensures AllFitting(s) ==> AllFitting(Place(s, NewTicket(q, service, phone, d, now)))
  {
    assert forall u | IsOpen(Place(s, NewTicket(q, service, phone, d, now)), u) && u != s.nextTicket :: IsOpen(s, u);
  }

  lemma MoveSlotTickets(s: State, t: TicketId, start: Instant, d: DeskId)
    requires TicketsFit(s) && t in s.tickets
    ensures TicketsFit(MoveSlot(s, t, start, d))
  {
    var s' := MoveSlot(s, t, start, d);
    assert forall a, u :: ActiveFor(s', a, u) == ActiveFor(s, a, u);
    assert forall a, u :: ServedBy(s', a, u) == ServedBy(s, a, u);
  }

  lemma MoveSlotEvolves(s: State, t: TicketId, start: Instant, d: DeskId)
    requires References(s) && t in s.tickets
    ensures var s' := MoveSlot(s, t, start, d); Evolves(s, s') && (DesksAgree(s) ==> DesksAgree(s'))
  {
  }

  lemma MoveSlotSafe(s: State, t: TicketId, start: Instant, d: DeskId)
    requires Safe(s) && t in s.tickets
    ensures var s' := MoveSlot(s, t, start, d); Safe(s') && Evolves(s, s') && (DesksAgree(s) ==> DesksAgree(s'))
  {
    var s' := MoveSlot(s, t, start, d);
    MoveSlotTickets(s, t, start, d);
    MoveSlotEvolves(s, t, start, d);
    assert forall a :: IsActive(s', a) == IsActive(s, a);
    assert forall a, e :: ActiveBy(s', a, e) == ActiveBy(s, a, e);
  }

  /** So does a moved one, which is never in its own way. */
  lemma MoveSlotDisjoint(s: State, listed: set<Key>, q: Request, t: TicketId, d: DeskId)
    requires Disjoint(s) && IsOpen(s, t) && DeskFree(s, listed, q, d)
    requires q.minutes == s.tickets[t].duration && q.exclude == Some(t)
    ensures Disjoint(MoveSlot(s, t, q.start, d)) <==> !Overlooked(s, q, d)
  {
    var s' := MoveSlot(s, t, q.start, d);
    var row := s'.tickets[t];
    assert forall u :: IsOpen(s', u) <==> IsOpen(s, u);
    forall u | IsOpen(s, u) && u != t
      ensures (Collide(row, s.tickets[u]) <==> Overlooks(s, q, d, u))
      ensures (Collide(s.tickets[u], row) <==> Overlooks(s, q, d, u))
    {
      FreeDeskCollides(s, listed, q, d, row, u);
    }
    if u :| Overlooks(s, q, d, u) {
      assert IsOpen(s', u) && IsOpen(s', t) && Collide(s'.tickets[t], s'.tickets[u]);
    }
  }

  lemma MoveSlotPlaced(s: State, listed: set<Key>, q: Request, t: TicketId, d: DeskId)
    requires t in s.tickets && Placed(s.place, s.tickets[t]) && DeskFree(s, listed, q, d)
    requires InWorkday(q.start, q.minutes)
    requires q.site == s.tickets[t].site && Some(q.country) == s.tickets[t].country
    requires q.minutes == s.tickets[t].duration
    ensures Fitting(s.place, MoveSlot(s, t, q.start, d).tickets[t])
    ensures AllPlaced(s) ==> AllPlaced(MoveSlot(s, t, q.start, d))
    ensures AllFitting(s) ==> AllFitting(MoveSlot(s, t, q.start, d))
  {
    assert forall u :: IsOpen(MoveSlot(s, t, q.start, d), u) <==> IsOpen(s, u);
  }

  // ----- the public list of slots -----

  /** What the list looks at: the day's tickets only. */
  predicate DayTicketBlocks(s: State, q: Request, day: int, d: DeskId, t: TicketId) {
    TicketBlocks(s, q, d, t) && At(day, 0) <= s.tickets[t].scheduledAt.value < At(day + 1, 0)
  }

  ghost predicate ListedFree(s: State, listed: set<Key>, q: Request, day: int, d: DeskId) {
    && Candidate(s, q, d)
    && (forall t :: !DayTicketBlocks(s, q, day, d, t))
    && (forall k | k in listed :: !HoldBlocks(q, d, k))
    && (forall b :: !BlockBlocks(s, q, d, b))
  }

  /** The list shows the time as available. */
  ghost predicate DayOpen(s: State, listed: set<Key>, q: Request, day: int) {
    exists d :: ListedFree(s, listed, q, day, d)
  }

  function GridRequest(site: SiteId, country: Country, day: int, minute: int, exclude: Option<TicketId>): Request {
    Request(site, country, At(day, minute), SlotDuration(country), exclude)
  }

  /** The scan of one day loses nothing: whatever overlaps the slot starts on its day. */
  lemma DayScanComplete(s: State, q: Request, d: DeskId, t: TicketId)
    requires AllPlaced(s) && InWorkday(q.start, q.minutes) && TicketBlocks(s, q, d, t)
    ensures DayTicketBlocks(s, q, DayOf(q.start), d, t)
  {
    var row := s.tickets[t];
    assert Placed(s.place, row);
    WorkdayInsideDay(q.start, q.minutes);
    WorkdayInsideDay(row.scheduledAt.value, row.duration);
    var day, other := DayOf(q.start), DayOf(row.scheduledAt.value);
    assert At(other, 0) < At(day + 1, 0) && At(day, 0) < At(other + 1, 0);
    assert other == day;
  }

  /** A grid slot of a weekday is shown as available exactly when booking it passes the check. */
  lemma ListAgreesWithCheck(s: State, listed: set<Key>, site: SiteId, country: Country, day: int, minute: int,
                            exclude: Option<TicketId>, now: Instant)
    requires AllPlaced(s) && OnGrid(country, minute) && !Weekend(day) && now < At(day, minute)
    ensures var q := GridRequest(site, country, day, minute, exclude);
            DayOpen(s, listed, q, day) <==> SlotError(s, listed, q, now).None?
  {
    var q := GridRequest(site, country, day, minute, exclude);
    GridInWorkday(country, day, minute);
    forall d ensures ListedFree(s, listed, q, day, d) == DeskFree(s, listed, q, d) {
      forall t ensures TicketBlocks(s, q, d, t) == DayTicketBlocks(s, q, day, d, t) {
        if TicketBlocks(s, q, d, t) { DayScanComplete(s, q, d, t); }
      }
    }
  }

  /** reserveDesk finds a desk exactly when isSlotFree holds. */
  lemma ReserveIffFree(s: State, listed: set<Key>, q: Request, preferred: Option<DeskId>)
    ensures SlotFree(s, listed, q) <==> exists d :: GoodDesk(s, listed, q, preferred, d)
  {
    if SlotFree(s, listed, q) {
      var d :| DeskFree(s, listed, q, d);
      if preferred.Some? && DeskFree(s, listed, q, preferred.value) {
        assert GoodDesk(s, listed, q, preferred, preferred.value);
      } else {
        var free := set f | f in s.place.desks && DeskFree(s, listed, q, f);
        assert d in free;
        var desks := s.place.desks;
        var first := Minimal(free, (x, y) => x in desks && y in desks && desks[x].rank < desks[y].rank);
        assert forall f | DeskFree(s, listed, q, f) :: f in free;
        assert GoodDesk(s, listed, q, preferred, first);
      }
    }
  }
}
