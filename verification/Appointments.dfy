/** Making and moving appointments: each transaction on the database and, for createTicket, on the holds. */
module Appointments {
  import opened Domain
  import opened Calendar
  import opened Holds
  import opened Tables
  import opened Booking

  // `person` is the validated phone, or nothing when the person's data are refused.
  datatype Form = Form(site: SiteId, service: ServiceId, country: Country, person: Option<string>, start: Instant)

  function RequestOf(f: Form): Request {
    Request(f.site, f.country, f.start, SlotDuration(f.country), None)
  }

  predicate Offered(s: State, f: Form) {
    f.site in s.place.sites && f.service in s.place.services && s.place.services[f.service] == f.site
  }

  /** assertPhoneSlotFree finds an open ticket with the phone at this time. */
  ghost predicate PhoneTaken(s: State, phone: string, start: Instant) {
    exists t :: t in s.tickets && s.tickets[t].phone == phone && s.tickets[t].scheduledAt == Some(start)
                && !Terminal(s.tickets[t].status)
  }

  /**
   * The checks made under the site's lock, and the new ticket on desk `d`. `duplicate` is what the caller makes of a
   * refusal by the unique index.
   */
  ghost function Book(s: State, listed: set<Key>, f: Form, phone: string, now: Instant, d: DeskId,
                      duplicate: Error): Result<State> {
    match SlotError(s, listed, RequestOf(f), now)
    case Some(error) => Err(error)
    case None =>
      if PhoneTaken(s, phone, f.start) then Err(Conflict)
      else if PairTaken(s, d, f.start, None) then Err(duplicate)
      else Ok(Place(s, NewTicket(RequestOf(f), f.service, phone, d, now)))
  }

  /** A desk reserveDesk may answer, when it gets that far. */
  ghost predicate GoodBooking(s: State, listed: set<Key>, f: Form, preferred: Option<DeskId>, now: Instant, d: DeskId) {
    SlotError(s, listed, RequestOf(f), now).None? ==> GoodDesk(s, listed, RequestOf(f), preferred, d)
  }

  /** The walk-in desk: an appointment for later today. */
  ghost function WalkIn(s: State, r: Store, f: Form, now: Instant, d: DeskId): Result<State> {
    if f.person.None? then Err(BadRequest)
    else if !Offered(s, f) then Err(NotFound)
    else if DayOf(f.start) != DayOf(now) || f.start <= now then Err(BadRequest)
    else Book(s, Listed(r, now), f, f.person.value, now, d, DatabaseError)
  }

  /** What the holds are when createTicket comes to book: its own hold is consumed, whatever happens next. */
  ghost function AfterConsume(r: Store, session: SessionId, holdId: HoldId, start: Instant, now: Instant): Option<(Key,
                              Store)> {
    match PeekHold(r, session, holdId, now)
    case None => None
    case Some(k) => if k.time != start then None else Some((k, ConsumeHold(r, session, holdId, k, now).0))
  }

  ghost function CreateTicket(s: State, r: Store, f: Form, session: SessionId, holdId: HoldId, now: Instant,
                              d: DeskId): (Store, Result<State>) {
    if f.person.None? then (r, Err(BadRequest))
    else if !Offered(s, f) then (r, Err(NotFound))
    else match AfterConsume(r, session, holdId, f.start, now)
      case None => (r, Err(Conflict))
      case Some(held) => (held.1, Book(s, Listed(held.1, now), f, f.person.value, now, d, Conflict))
  }

  /** The request of a ticket that moves to `start`. */
  function MoveRequest(s: State, t: TicketId, start: Instant): Request
    requires t in s.tickets && s.tickets[t].country.Some?
  {
    Request(s.tickets[t].site, s.tickets[t].country.value, start, s.tickets[t].duration, Some(t))
  }

  ghost function Reschedule(s: State, r: Store, t: TicketId, start: Instant, now: Instant, d: DeskId): Result<State> {
    if t !in s.tickets then Err(NotFound)
    else if s.tickets[t].scheduledAt.None? || s.tickets[t].country.None? then Err(BadRequest)
    else if Terminal(s.tickets[t].status) then Err(Conflict)
    else match SlotError(s, Listed(r, now), MoveRequest(s, t, start), now)
      case Some(error) => Err(error)
      case None => if PairTaken(s, d, start, Some(t)) then Err(DatabaseError) else Ok(MoveSlot(s, t, start, d))
  }

  // ----- what bookings keep -----

  lemma BookKeeps(s: State, listed: set<Key>, f: Form, phone: string, preferred: Option<DeskId>, now: Instant,
                  d: DeskId, duplicate: Error)
    requires Safe(s) && GoodBooking(s, listed, f, preferred, now, d) && Book(s, listed, f, phone, now, d, duplicate).Ok?
    ensures var s' := Book(s, listed, f, phone, now, d, duplicate).value;
            && Safe(s') && Evolves(s, s') && (DesksAgree(s) ==> DesksAgree(s'))
            && (AllPlaced(s) ==> AllPlaced(s')) && (AllFitting(s) ==> AllFitting(s'))
  {
    PlaceSafe(s, NewTicket(RequestOf(f), f.service, phone, d, now));
    PlacePlaced(s, listed, RequestOf(f), f.service, phone, d, now);
  }

  /** A booking keeps appointments disjoint exactly when the check has passed over none at the desk. */
  lemma BookDisjoint(s: State, listed: set<Key>, f: Form, phone: string, preferred: Option<DeskId>, now: Instant,
                     d: DeskId, duplicate: Error)
    requires References(s) && Disjoint(s)
    requires GoodBooking(s, listed, f, preferred, now, d) && Book(s, listed, f, phone, now, d, duplicate).Ok?
    ensures Disjoint(Book(s, listed, f, phone, now, d, duplicate).value) <==> !Overlooked(s, RequestOf(f), d)
  {
    PlaceDisjoint(s, listed, RequestOf(f), f.service, phone, d, now);
  }

  lemma RescheduleKeeps(s: State, r: Store, t: TicketId, start: Instant, now: Instant, d: DeskId)
    requires Safe(s) && Reschedule(s, r, t, start, now, d).Ok?
    requires GoodDesk(s, Listed(r, now), MoveRequest(s, t, start), None, d)
    ensures var s' := Reschedule(s, r, t, start, now, d).value;
            && Safe(s') && Evolves(s, s') && (DesksAgree(s) ==> DesksAgree(s'))
            && (AllPlaced(s) ==> AllPlaced(s')) && (AllPlaced(s) && AllFitting(s) ==> AllFitting(s'))
  {
    MoveSlotSafe(s, t, start, d);
    if AllPlaced(s) { MoveSlotPlaced(s, Listed(r, now), MoveRequest(s, t, start), t, d); }
  }

  lemma RescheduleDisjoint(s: State, r: Store, t: TicketId, start: Instant, now: Instant, d: DeskId)
    requires Disjoint(s) && Reschedule(s, r, t, start, now, d).Ok?
    requires GoodDesk(s, Listed(r, now), MoveRequest(s, t, start), None, d)
    ensures Disjoint(Reschedule(s, r, t, start, now, d).value) <==> !Overlooked(s, MoveRequest(s, t, start), d)
  {
    MoveSlotDisjoint(s, Listed(r, now), MoveRequest(s, t, start), t, d);
  }

  // ----- appointments and holds -----

  /** A live hold is missing from the list only in its last second, and only when its score is not its deadline. */
  lemma MissingIsLate(r: Store, k: Key, now: Instant)
    requires InSync(r, now) && LiveHold(r, k, now) && k !in Listed(r, now)
    ensures r.holds[k].deadline <= now + 1000 && !Exact(r, now)
  {
    ListedNearly(r, now, k);
    if Exact(r, now) { ListedExactly(r, now, k); }
  }

  /**
   * A new appointment overlaps no live hold, measured with the length its desk's country gives it, unless the hold's
   * score has come before its deadline: then it has less than a second to live.
   */
  lemma BookedClearOfHolds(s: State, r: Store, f: Form, preferred: Option<DeskId>, now: Instant, d: DeskId, k: Key)
    requires SlotError(s, Listed(r, now), RequestOf(f), now).None?
    requires GoodBooking(s, Listed(r, now), f, preferred, now, d)
    requires InSync(r, now) && LiveHold(r, k, now) && k.desk == d
    ensures Overlap(f.start, End(f.start, SlotDuration(f.country)),
                    k.time, End(k.time, SlotDuration(s.place.desks[d].country)))
            ==> k !in Listed(r, now) && r.holds[k].deadline <= now + 1000 && !Exact(r, now)
  {
    if k in Listed(r, now) {
      PlacedClearOfHolds(s, Listed(r, now), RequestOf(f), d, k);
    } else {
      MissingIsLate(r, k, now);
    }
  }

  /** The same for a moved appointment; its length is the one its country had when it was made. */
  lemma MovedClearOfHolds(s: State, r: Store, t: TicketId, start: Instant, now: Instant, d: DeskId, k: Key)
    requires AllPlaced(s) && Reschedule(s, r, t, start, now, d).Ok?
    requires GoodDesk(s, Listed(r, now), MoveRequest(s, t, start), None, d)
    requires InSync(r, now) && LiveHold(r, k, now) && k.desk == d
    ensures Overlap(start, End(start, s.tickets[t].duration),
                    k.time, End(k.time, SlotDuration(s.place.desks[d].country)))
            ==> k !in Listed(r, now) && r.holds[k].deadline <= now + 1000 && !Exact(r, now)
  {
    assert Placed(s.place, s.tickets[t]);
    if k in Listed(r, now) {
      PlacedClearOfHolds(s, Listed(r, now), MoveRequest(s, t, start), d, k);
    } else {
      MissingIsLate(r, k, now);
    }
  }

  /**
   * Exactly then: a hold that alone stands in the way of a desk leaves the desk free if and only if it is not listed,
   * which is when its score has come.
   */
  lemma HoldMissedWhenScoreComes(s: State, r: Store, q: Request, now: Instant, k: Key)
    requires HoldBlocks(q, k.desk, k) && DeskFree(s, Listed(r, now) - {k}, q, k.desk)
    ensures DeskFree(s, Listed(r, now), q, k.desk) <==> k !in Index(r, now) || Index(r, now)[k] <= now
  {
    assert k !in Listed(r, now) ==> Listed(r, now) - {k} == Listed(r, now);
  }

  /** createTicket takes its own hold, and no other, out of its way. */
  lemma ConsumesOwnHoldOnly(r: Store, session: SessionId, holdId: HoldId, start: Instant, now: Instant)
    requires InSync(r, now) && AfterConsume(r, session, holdId, start, now).Some?
    ensures var (k, after) := AfterConsume(r, session, holdId, start, now).value;
            && LiveHold(r, k, now) && r.holds[k].session == session && k.time == start
            && Listed(after, now) == Listed(r, now) - {k}
            && (forall j | j != k :: LiveHold(after, j, now) <==> LiveHold(r, j, now))
  {
  }
}
