/** When a desk is free and what a booking writes, spelled out over tickets, holds and blocked time. */
module BookingLaws {
  import opened Domain
  import opened Calendar
  import opened Holds
  import opened Booking
  import opened Appointments

  // ----- time -----

  /** Days are counted from a Thursday. */
  lemma WeekendExactly(day: int)
    ensures Weekend(day) <==> day % 7 == 2 || day % 7 == 3
  {
  }

  /** Moscow is three hours ahead. */
  lemma MoscowTime(t: Instant)
    ensures DayOf(t) == (t + 10_800_000) / 86_400_000
    ensures MinuteOf(t) == (t + 10_800_000) % 86_400_000 / 60_000
    ensures forall day, minute :: At(day, minute) == 86_400_000 * day + 60_000 * minute - 10_800_000
  {
  }

  /** From eight to five on weekdays. */
  lemma InWorkdayExactly(t: Instant, minutes: int)
    ensures InWorkday(t, minutes) <==>
              var day, minute := (t + 10_800_000) / 86_400_000, (t + 10_800_000) % 86_400_000 / 60_000;
              day % 7 != 2 && day % 7 != 3 && 480 <= minute && minute + minutes <= 1020
  {
  }

  /** The grid: 27 slots of twenty minutes, or 18 of thirty. */
  lemma GridExactly(m: int)
    ensures OnGrid(RF, m) <==> exists i: nat :: i < 27 && m == 480 + 20 * i
    ensures OnGrid(CN, m) <==> exists i: nat :: i < 18 && m == 480 + 30 * i
  {
    if OnGrid(RF, m) { assert m == 480 + 20 * ((m - 480) / 20); }
    if OnGrid(CN, m) { assert m == 480 + 30 * ((m - 480) / 30); }
  }

  // ----- when a desk is free -----

  /** The half-open times have a moment in common. */
  predicate Meets(from: Instant, minutes: int, from': Instant, until': Instant) {
    from < until' && from' < from + 60_000 * minutes
  }

  /** An open ticket at the desk, of the request's site and country and not the one that moves, meets the request. */
  predicate InTheWay(s: State, q: Request, d: DeskId, u: TicketId) {
    && u in s.tickets && Some(u) != q.exclude
    && var row := s.tickets[u];
       && row.status != Completed && row.status != Cancelled && row.status != NoShow
       && row.site == q.site && row.country == Some(q.country) && row.reservedDesk == Some(d)
       && row.scheduledAt.Some?
       && Meets(q.start, q.minutes, row.scheduledAt.value, row.scheduledAt.value + 60_000 * row.duration)
  }

  /** A hold at the desk, taken to be as long as the request and at least a minute, meets it. */
  predicate HoldInTheWay(q: Request, d: DeskId, k: Key) {
    k.desk == d && Meets(q.start, q.minutes, k.time, k.time + 60_000 * (if q.minutes == 0 then 1 else q.minutes))
  }

  /** The employee at the desk has blocked time of that day at the site, and it meets the request. */
  predicate BlockInTheWay(s: State, q: Request, d: DeskId, b: BlockId) {
    && b in s.place.blocks
    && var row := s.place.blocks[b];
       && row.site == q.site && row.day == (q.start + 10_800_000) / 86_400_000
       && row.employee in s.employees && s.employees[row.employee].desk == Some(d)
       && var midnight := 86_400_000 * row.day - 10_800_000;
          Meets(q.start, q.minutes, midnight + 60_000 * row.from, midnight + 60_000 * row.until)
  }

  /** The desk is switched on, at the site and for the country. */
  predicate IsDeskFor(s: State, q: Request, d: DeskId) {
    && d in s.place.desks && s.place.desks[d].active
    && s.place.desks[d].site == q.site && s.place.desks[d].country == q.country
  }

  lemma InTheWayExactly(s: State, q: Request, d: DeskId)
    ensures forall u :: TicketBlocks(s, q, d, u) <==> InTheWay(s, q, d, u)
    ensures forall k :: HoldBlocks(q, d, k) <==> HoldInTheWay(q, d, k)
    ensures forall b :: BlockBlocks(s, q, d, b) <==> BlockInTheWay(s, q, d, b)
    ensures Candidate(s, q, d) <==> IsDeskFor(s, q, d)
  {
  }

  /** A desk is free exactly when it is one for the request and no ticket, no hold and no blocked time is in the way. */
  lemma FreeExactly(s: State, listed: set<Key>, q: Request, d: DeskId)
    ensures DeskFree(s, listed, q, d) <==>
              && IsDeskFor(s, q, d)
              && (forall u :: !InTheWay(s, q, d, u))
              && (forall k | k in listed :: !HoldInTheWay(q, d, k))
              && (forall b :: !BlockInTheWay(s, q, d, b))
  {
    InTheWayExactly(s, q, d);
  }

  /** The new time of the ticket meets another open ticket of its site and country at the desk. */
  predicate MovesInto(s: State, t: TicketId, start: Instant, d: DeskId, u: TicketId) {
    && t in s.tickets && u in s.tickets && u != t
    && var x, y := s.tickets[t], s.tickets[u];
       && y.status != Completed && y.status != Cancelled && y.status != NoShow
       && y.site == x.site && y.country == x.country && y.reservedDesk == Some(d)
       && y.scheduledAt.Some?
       && Meets(start, x.duration, y.scheduledAt.value, y.scheduledAt.value + 60_000 * y.duration)
  }

  /** Nothing but tickets is in the way of the move. */
  predicate OnlyTicketsInTheWay(s: State, listed: set<Key>, t: TicketId, start: Instant, d: DeskId)
    requires t in s.tickets && s.tickets[t].country.Some?
  {
    var q := MoveRequest(s, t, start);
    && IsDeskFor(s, q, d) && (forall k | k in listed :: !HoldInTheWay(q, d, k))
    && (forall b | b in s.place.blocks :: !BlockInTheWay(s, q, d, b))
  }

  /** A ticket that moves finds a desk free exactly when no other is in the way: its own old time never is. */
  lemma MovesWhere(s: State, listed: set<Key>, t: TicketId, start: Instant, d: DeskId)
    requires t in s.tickets && s.tickets[t].country.Some? && OnlyTicketsInTheWay(s, listed, t, start, d)
    ensures DeskFree(s, listed, MoveRequest(s, t, start), d) <==> forall u :: !MovesInto(s, t, start, d, u)
  {
    FreeExactly(s, listed, MoveRequest(s, t, start), d);
    assert forall u :: InTheWay(s, MoveRequest(s, t, start), d, u) <==> MovesInto(s, t, start, d, u);
  }

  /** An open ticket with no other in its way may always be moved, also into its own time at its own desk. */
  lemma MovesFreely(s: State, r: Store, t: TicketId, start: Instant, now: Instant, d: DeskId)
    requires t in s.tickets && s.tickets[t].scheduledAt.Some? && s.tickets[t].country.Some?
    requires SlotHolding(s.tickets[t].status) && OnlyTicketsInTheWay(s, Listed(r, now), t, start, d)
    requires forall u :: !MovesInto(s, t, start, d, u) && (u != t ==> !PairThere(s, d, start, u))
    requires InWorkday(start, s.tickets[t].duration) && now < start
    ensures Reschedule(s, r, t, start, now, d).Ok?
  {
    MovesWhere(s, Listed(r, now), t, start, d);
    assert DeskFree(s, Listed(r, now), MoveRequest(s, t, start), d);
    assert forall u | TakesPair(s, d, start, Some(t), u) :: PairThere(s, d, start, u);
  }

  /** The request is refused for its time before it is refused for want of a desk. */
  lemma RefusesWhen(s: State, listed: set<Key>, q: Request, now: Instant)
    ensures SlotError(s, listed, q, now) ==
            if !InWorkday(q.start, q.minutes) || q.start <= now then Some(BadRequest)
            else if forall d :: !DeskFree(s, listed, q, d) then Some(Conflict)
            else None
  {
  }

  /** The desk answered is free; the preferred one if that is, and otherwise none that is free comes before it. */
  lemma ReservesInOrder(s: State, listed: set<Key>, q: Request, preferred: Option<DeskId>, d: DeskId, f: DeskId)
    requires GoodDesk(s, listed, q, preferred, d)
    ensures DeskFree(s, listed, q, d)
    ensures preferred == Some(f) && DeskFree(s, listed, q, f) ==> d == f
    ensures !(preferred.Some? && DeskFree(s, listed, q, preferred.value)) && DeskFree(s, listed, q, f) ==>
              s.place.desks[d].rank <= s.place.desks[f].rank
  {
  }

  // ----- what a booking writes -----

  /** An open ticket has this phone at this time. */
  predicate PhoneThere(s: State, phone: string, start: Instant, t: TicketId) {
    && t in s.tickets && s.tickets[t].phone == phone && s.tickets[t].scheduledAt == Some(start)
    && s.tickets[t].status != Completed && s.tickets[t].status != Cancelled && s.tickets[t].status != NoShow
  }

  /** An open ticket has this desk at this start. */
  predicate PairThere(s: State, d: DeskId, start: Instant, t: TicketId) {
    && t in s.tickets && s.tickets[t].reservedDesk == Some(d) && s.tickets[t].scheduledAt == Some(start)
    && s.tickets[t].status != Completed && s.tickets[t].status != Cancelled && s.tickets[t].status != NoShow
  }

  /** The checks come in order, and what passes is one booked ticket more. */
  lemma BooksSo(s: State, listed: set<Key>, f: Form, phone: string, now: Instant, d: DeskId, duplicate: Error)
    ensures Book(s, listed, f, phone, now, d, duplicate) ==
            var q := Request(f.site, f.country, f.start, if f.country == RF then 20 else 30, None);
            if SlotError(s, listed, q, now).Some? then Err(SlotError(s, listed, q, now).value)
            else if exists t :: PhoneThere(s, phone, f.start, t) then Err(Conflict)
            else if exists t :: PairThere(s, d, f.start, t) then Err(duplicate)
            else
              var row := Ticket(Booked, 0, 0, f.site, f.service, Some(f.country), phone, Some(f.start), None,
                                if f.country == RF then 20 else 30, Some(d), now);
              Ok(s.(tickets := s.tickets[s.nextTicket := row], nextTicket := s.nextTicket + 1))
  {
    assert (exists t :: PhoneThere(s, phone, f.start, t)) <==> PhoneTaken(s, phone, f.start) by {
      assert forall t :: PhoneThere(s, phone, f.start, t) ==> !Terminal(s.tickets[t].status);
      if PhoneTaken(s, phone, f.start) {
        var t :| t in s.tickets && s.tickets[t].phone == phone && s.tickets[t].scheduledAt == Some(f.start)
                 && !Terminal(s.tickets[t].status);
        assert PhoneThere(s, phone, f.start, t);
      }
    }
    assert forall t :: PairThere(s, d, f.start, t) <==> TakesPair(s, d, f.start, None, t);
  }

  predicate SiteOffers(s: State, f: Form) {
    f.site in s.place.sites && f.service in s.place.services && s.place.services[f.service] == f.site
  }

  /** At the walk-in desk: a valid person, a service of the site, and a time still to come today in Moscow. */
  lemma WalksInSo(s: State, r: Store, f: Form, now: Instant, d: DeskId)
    ensures WalkIn(s, r, f, now, d) ==
            if f.person.None? then Err(BadRequest)
            else if !SiteOffers(s, f) then Err(NotFound)
            else if (f.start + 10_800_000) / 86_400_000 != (now + 10_800_000) / 86_400_000 then Err(BadRequest)
            else if f.start <= now then Err(BadRequest)
            else Book(s, Listed(r, now), f, f.person.value, now, d, DatabaseError)
  {
  }

  /** The session must hold the very time it books; then its hold is gone, whatever the booking comes to. */
  lemma CreatesSo(s: State, r: Store, f: Form, session: SessionId, id: HoldId, now: Instant, d: DeskId)
    ensures var (r', outcome) := CreateTicket(s, r, f, session, id, now, d);
            if f.person.None? then r' == r && outcome == Err(BadRequest)
            else if !SiteOffers(s, f) then r' == r && outcome == Err(NotFound)
            else
              match PeekHold(r, session, id, now)
              case None => r' == r && outcome == Err(Conflict)
              case Some(k) =>
                if k.time != f.start then r' == r && outcome == Err(Conflict)
                else
                  && r' == Store(r.holds - {k}, r.pointers - {session}, r.refreshed - {session}, r.index - {k},
                                 r.indexDeadline)
                  && outcome == Book(s, Listed(r', now), f, f.person.value, now, d, Conflict)
  {
  }

  /** A move changes the slot and the desk of an open ticket and nothing else. */
  lemma ReschedulesSo(s: State, r: Store, t: TicketId, start: Instant, now: Instant, d: DeskId)
    ensures Reschedule(s, r, t, start, now, d) ==
            if t !in s.tickets then Err(NotFound)
            else
              var row := s.tickets[t];
              if row.scheduledAt.None? || row.country.None? then Err(BadRequest)
              else if row.status == Completed || row.status == Cancelled || row.status == NoShow then Err(Conflict)
              else
                var q := Request(row.site, row.country.value, start, row.duration, Some(t));
                if SlotError(s, Listed(r, now), q, now).Some? then Err(SlotError(s, Listed(r, now), q, now).value)
                else if exists u :: u != t && PairThere(s, d, start, u) then Err(DatabaseError)
                else Ok(s.(tickets := s.tickets[t := row.(scheduledAt := Some(start), reservedDesk := Some(d))]))
  {
    assert forall u :: (u != t && PairThere(s, d, start, u)) <==> TakesPair(s, d, start, Some(t), u);
  }
}
