/** What a hold is for: while it lives nobody else gets its time at its desk. */
module HoldPromise {
  import opened Domain
  import opened Calendar
  import opened Holds
  import opened Tables
  import opened Booking
  import opened Office
  import opened Appointments
  import opened Runs

  /** The open ticket does not overlap the held time, which is as long as the desk's country makes it. */
  predicate LeavesFree(s: State, k: Key, t: TicketId)
    requires t in s.tickets && k.desk in s.place.desks
  {
    var row := s.tickets[t];
    SlotHolding(row.status) && row.reservedDesk == Some(k.desk) && row.scheduledAt.Some? ==>
      !Overlap(row.scheduledAt.value, End(row.scheduledAt.value, row.duration),
               k.time, End(k.time, SlotDuration(s.place.desks[k.desk].country)))
  }

  /** No open ticket overlaps the held time. */
  ghost predicate ClearOf(s: State, k: Key) {
    k.desk in s.place.desks ==> forall t | t in s.tickets :: LeavesFree(s, k, t)
  }

  /** A desk found free has no open ticket in the time exactly when the check has passed none over. */
  lemma ChosenIsClear(s: State, listed: set<Key>, q: Request, d: DeskId)
    requires DeskFree(s, listed, q, d) && q.exclude.None? && q.minutes == SlotDuration(q.country)
    ensures ClearOf(s, Key(d, q.start)) <==> !Overlooked(s, q, d)
  {
    forall t | t in s.tickets ensures LeavesFree(s, Key(d, q.start), t) <==> !Overlooks(s, q, d, t) {
      assert !TicketBlocks(s, q, d, t);
    }
  }

  lemma QueueLeavesClear(s: State, s': State, k: Key)
    requires ClearOf(s, k) && SameSlots(s, s') && TicketsEvolve(s, s')
    ensures ClearOf(s', k)
  {
    if k.desk in s'.place.desks {
      forall t | t in s'.tickets ensures LeavesFree(s', k, t) {
        assert LeavesFree(s, k, t) && MayBecome(s.tickets[t].status, s'.tickets[t].status);
      }
    }
  }

  // ----- a held time that grows -----

  /** An open ticket at the desk overlaps a slot of the country from the held start on. */
  predicate InLongerSlot(s: State, k: Key, country: Country, t: TicketId) {
    && IsOpen(s, t)
    && var row := s.tickets[t];
       && row.reservedDesk == Some(k.desk) && row.scheduledAt.Some?
       && Overlap(row.scheduledAt.value, End(row.scheduledAt.value, row.duration),
                  k.time, End(k.time, SlotDuration(country)))
  }

  /** The desk is given the slots of a country in which the time meets an open ticket. */
  ghost predicate GrowsInto(s: State, o: OfficeStep, k: Key) {
    && o.PatchesDesk? && o.d == k.desk && k.desk in s.place.desks
    && exists t :: InLongerSlot(s, k, Patched(s.place.desks[k.desk], o.patch).country, t)
  }

  lemma PatchClear(s: State, d: DeskId, patch: DeskPatch, k: Key)
    requires ClearOf(s, k) && UpdateDesk(s, d, patch).Ok?
    ensures ClearOf(UpdateDesk(s, d, patch).value, k) <==> !GrowsInto(s, PatchesDesk(d, patch), k)
  {
    var s' := UpdateDesk(s, d, patch).value;
    if d == k.desk {
      forall t | t in s.tickets
        ensures LeavesFree(s', k, t) <==> !InLongerSlot(s, k, Patched(s.place.desks[d], patch).country, t)
      {
      }
    } else if k.desk in s.place.desks {
      forall t | t in s.tickets ensures LeavesFree(s', k, t) { assert LeavesFree(s, k, t); }
    }
  }

  /** No other change of the office touches a held time. */
  lemma OtherOfficeClear(s: State, o: OfficeStep, k: Key)
    requires ClearOf(s, k) && AllPlaced(s) && DesksIssued(s) && Administer(s, o).Ok? && !o.PatchesDesk?
    ensures ClearOf(Administer(s, o).value, k)
  {
    var s' := Administer(s, o).value;
    AdministerPlaces(s, o);
    if k.desk in s'.place.desks {
      forall t | t in s'.tickets ensures LeavesFree(s', k, t) {
        if IsOpen(s, t) && s.tickets[t].reservedDesk == Some(k.desk) {
          assert Placed(s.place, s.tickets[t]) && LeavesFree(s, k, t) && DeskBooked(s, k.desk);
        }
      }
    }
  }

  // ----- what is placed in a held time -----

  /** The step places an appointment in the time. */
  ghost predicate LandsIn(y: System, o: Occurrence, k: Key)
    requires Safe(y.db)
  {
    && o.event.AtDesk? && Arrange(y.db, y.redis, o.event.b, o.now).1.Ok?
    && var p := PlacingOf(y.db, o.event.b);
       && p.d == k.desk && k.desk in y.db.place.desks
       && Overlap(p.q.start, End(p.q.start, p.q.minutes),
                  k.time, End(k.time, SlotDuration(y.db.place.desks[k.desk].country)))
  }

  lemma PlaceClear(s: State, q: Request, service: ServiceId, phone: string, d: DeskId, now: Instant, k: Key)
    requires References(s) && ClearOf(s, k)
    ensures ClearOf(Place(s, NewTicket(q, service, phone, d, now)), k)
            <==> !(d == k.desk && k.desk in s.place.desks
                   && Overlap(q.start, End(q.start, q.minutes),
                              k.time, End(k.time, SlotDuration(s.place.desks[k.desk].country))))
  {
    var s' := Place(s, NewTicket(q, service, phone, d, now));
    if k.desk in s.place.desks {
      forall t | t in s.tickets ensures LeavesFree(s', k, t) { assert LeavesFree(s, k, t); }
      assert s.nextTicket in s'.tickets;
    }
  }

  lemma MoveClear(s: State, q: Request, t: TicketId, d: DeskId, k: Key)
    requires IsOpen(s, t) && ClearOf(s, k) && q.minutes == s.tickets[t].duration
    ensures ClearOf(MoveSlot(s, t, q.start, d), k)
            <==> !(d == k.desk && k.desk in s.place.desks
                   && Overlap(q.start, End(q.start, q.minutes),
                              k.time, End(k.time, SlotDuration(s.place.desks[k.desk].country))))
  {
    var s' := MoveSlot(s, t, q.start, d);
    if k.desk in s.place.desks {
      forall u | u in s.tickets && u != t ensures LeavesFree(s', k, u) { assert LeavesFree(s, k, u); }
      assert t in s'.tickets;
    }
  }

  lemma ArrangeClear(y: System, o: Occurrence, k: Key)
    requires Safe(y.db) && ClearOf(y.db, k) && o.event.AtDesk? && Arrange(y.db, y.redis, o.event.b, o.now).1.Ok?
    ensures ClearOf(Next(y, o).db, k) <==> !LandsIn(y, o, k)
  {
    match o.event.b
    case Creates(f, _, _, d) => PlaceClear(y.db, RequestOf(f), f.service, f.person.value, d, o.now, k);
    case WalksIn(f, d) => PlaceClear(y.db, RequestOf(f), f.service, f.person.value, d, o.now, k);
    case Moves(t, start, d) => MoveClear(y.db, MoveRequest(y.db, t, start), t, d, k);
  }

  /** The step gives the held desk longer slots, and an open ticket starts within the longer time. */
  ghost predicate Grows(y: System, o: Occurrence, k: Key) {
    o.event.InOffice? && GrowsInto(y.db, o.event.o, k)
  }

  lemma OfficeClear(s: State, o: OfficeStep, k: Key)
    requires ClearOf(s, k) && AllPlaced(s) && DesksIssued(s)
    ensures ClearOf(Settle(s, Administer(s, o)), k) <==> !GrowsInto(s, o, k)
  {
    if Administer(s, o).Ok? {
      if o.PatchesDesk? { PatchClear(s, o.d, o.patch, k); } else { OtherOfficeClear(s, o, k); }
    }
  }

  /** A clear time stays clear exactly if no appointment is placed in it and it does not grow into one. */
  lemma NextClear(y: System, o: Occurrence, k: Key)
    requires Good(y) && Legal(y, o) && ClearOf(y.db, k)
    ensures ClearOf(Next(y, o).db, k) <==> !LandsIn(y, o, k) && !Grows(y, o, k)
  {
    match o.event
    case OnQueue(q) =>
      if Queue(y.db, q, o.now).Ok? {
        QueueKeeps(y.db, q, o.now);
        QueueLeavesClear(y.db, Queue(y.db, q, o.now).value, k);
      }
    case InOffice(step) => OfficeClear(y.db, step, k);
    case OnHolds(_) =>
    case AtDesk(b) => if Arrange(y.db, y.redis, b, o.now).1.Ok? { ArrangeClear(y, o, k); }
  }

  ghost predicate ClearThroughout(y: System, run: seq<Occurrence>, k: Key)
    requires Good(y) && LegalRun(y, run)
    decreases |run|
  {
    ClearOf(y.db, k) && (run == [] || (NextGood(y, run[0]); ClearThroughout(Next(y, run[0]), run[1..], k)))
  }

  ghost predicate NothingLands(y: System, run: seq<Occurrence>, k: Key)
    requires Good(y) && LegalRun(y, run)
    decreases |run|
  {
    run == [] || (!LandsIn(y, run[0], k) && (NextGood(y, run[0]); NothingLands(Next(y, run[0]), run[1..], k)))
  }

  ghost predicate NeverGrows(y: System, run: seq<Occurrence>, k: Key)
    requires Good(y) && LegalRun(y, run)
    decreases |run|
  {
    run == [] || (!Grows(y, run[0], k) && (NextGood(y, run[0]); NeverGrows(Next(y, run[0]), run[1..], k)))
  }

  /**
   * A clear time, held or not, stays clear in every state of a run exactly as long as no booking or move lands in it
   * and its desk is not given longer slots in which it meets an open ticket.
   */
  lemma {:induction false} RunClear(y: System, run: seq<Occurrence>, k: Key)
    requires Good(y) && LegalRun(y, run) && ClearOf(y.db, k)
    ensures ClearThroughout(y, run, k) <==> NothingLands(y, run, k) && NeverGrows(y, run, k)
    decreases |run|
  {
    if run != [] {
      NextGood(y, run[0]);
      NextClear(y, run[0], k);
      if ClearOf(Next(y, run[0]).db, k) { RunClear(Next(y, run[0]), run[1..], k); }
    }
  }

  lemma {:induction false} ClearAtTheEnd(y: System, run: seq<Occurrence>, k: Key)
    requires Good(y) && LegalRun(y, run) && ClearThroughout(y, run, k)
    ensures ClearOf(Run(y, run).db, k)
    decreases |run|
  {
    if run != [] {
      NextGood(y, run[0]);
      ClearAtTheEnd(Next(y, run[0]), run[1..], k);
    }
  }

  // ----- a live hold keeps others out -----

  /** The list of holds is sure to name the hold. */
  ghost predicate Seen(r: Store, k: Key, now: Instant) {
    LiveHold(r, k, now) && (Exact(r, now) || r.holds[k].deadline > now + 1000)
  }

  lemma SeenKeepsOut(y: System, o: Occurrence, k: Key)
    requires Good(y) && Legal(y, o) && Seen(Next(y, o).redis, k, o.now)
    ensures !LandsIn(y, o, k)
  {
    Later(y.redis, y.clock, o.now);
    if o.event.AtDesk? && Arrange(y.db, y.redis, o.event.b, o.now).1.Ok? && PlacingOf(y.db, o.event.b).d == k.desk {
      match o.event.b
      case Creates(f, session, id, d) =>
        var (own, after) := AfterConsume(y.redis, session, id, f.start, o.now).value;
        ConsumeHoldKeeps(y.redis, session, id, own, o.now);
        BookedClearOfHolds(y.db, after, f, Some(own.desk), o.now, d, k);
      case WalksIn(f, d) => BookedClearOfHolds(y.db, y.redis, f, None, o.now, d, k);
      case Moves(t, start, d) => MovedClearOfHolds(y.db, y.redis, t, start, o.now, d, k);
    }
  }

  /** A step that the hold outlives leaves its time clear exactly if the time does not grow into an open ticket. */
  lemma NextLeavesClear(y: System, o: Occurrence, k: Key)
    requires Good(y) && Legal(y, o) && ClearOf(y.db, k) && Seen(Next(y, o).redis, k, o.now)
    ensures ClearOf(Next(y, o).db, k) <==> !Grows(y, o, k)
  {
    SeenKeepsOut(y, o, k);
    NextClear(y, o, k);
  }

  /** The hold is alive after every step of the run, with a second to spare unless the index is exact. */
  ghost predicate HeldThroughout(y: System, run: seq<Occurrence>, k: Key)
    requires Good(y) && LegalRun(y, run)
    decreases |run|
  {
    run == []
    || (Seen(Next(y, run[0]).redis, k, run[0].now)
        && (NextGood(y, run[0]); HeldThroughout(Next(y, run[0]), run[1..], k)))
  }

  lemma {:induction false} NothingLandsWhileHeld(y: System, run: seq<Occurrence>, k: Key)
    requires Good(y) && LegalRun(y, run) && HeldThroughout(y, run, k)
    ensures NothingLands(y, run, k)
    decreases |run|
  {
    if run != [] {
      NextGood(y, run[0]);
      SeenKeepsOut(y, run[0], k);
      NothingLandsWhileHeld(Next(y, run[0]), run[1..], k);
    }
  }

  /**
   * While it is held a clear time stays clear, whatever anybody books or moves, exactly as long as its own desk is not
   * given longer slots in which it meets an open ticket.
   */
  lemma HeldTimeStaysClear(y: System, run: seq<Occurrence>, k: Key)
    requires Good(y) && LegalRun(y, run) && ClearOf(y.db, k) && HeldThroughout(y, run, k)
    ensures ClearThroughout(y, run, k) <==> NeverGrows(y, run, k)
  {
    NothingLandsWhileHeld(y, run, k);
    RunClear(y, run, k);
  }

  // ----- between choosing and taking -----

  /**
   * The two steps of holdSlot and what follows. A time is chosen on a free desk; from then on, before it is taken, it
   * stays clear exactly as long as the check passed no ticket over, nothing lands in it and it does not grow into a
   * ticket; and then, for as long as it is held, exactly as long as it does not grow into one.
   */
  lemma ChosenThenHeld(y: System, listed: set<Key>, q: Request, d: DeskId, between: seq<Occurrence>,
                       after: seq<Occurrence>)
    requires Good(y) && DeskFree(y.db, listed, q, d) && q.exclude.None? && q.minutes == SlotDuration(q.country)
    requires LegalRun(y, between) && Good(Run(y, between)) && LegalRun(Run(y, between), after)
    requires HeldThroughout(Run(y, between), after, Key(d, q.start))
    ensures var k := Key(d, q.start);
            && (ClearThroughout(y, between, k)
                <==> !Overlooked(y.db, q, d) && NothingLands(y, between, k) && NeverGrows(y, between, k))
            && (ClearThroughout(y, between, k) ==>
                  (ClearThroughout(Run(y, between), after, k) <==> NeverGrows(Run(y, between), after, k)))
  {
    var k := Key(d, q.start);
    ChosenIsClear(y.db, listed, q, d);
    if ClearOf(y.db, k) { RunClear(y, between, k); }
    if ClearThroughout(y, between, k) {
      ClearAtTheEnd(y, between, k);
      HeldTimeStaysClear(Run(y, between), after, k);
    }
  }

  /**
   * While its time is clear the held desk is refused to its holder only for another's hold, blocked time or a change of
   * the desk.
   */
  lemma HolderGetsDesk(s: State, listed: set<Key>, f: Form, k: Key)
    requires ClearOf(s, k) && f.start == k.time
    ensures DeskFree(s, listed, RequestOf(f), k.desk)
            <==> (&& Candidate(s, RequestOf(f), k.desk)
                  && (forall j | j in listed :: !HoldBlocks(RequestOf(f), k.desk, j))
                  && (forall b :: !BlockBlocks(s, RequestOf(f), k.desk, b)))
  {
    if Candidate(s, RequestOf(f), k.desk) {
      forall t ensures !TicketBlocks(s, RequestOf(f), k.desk, t) {
        if t in s.tickets { assert LeavesFree(s, k, t); }
      }
    }
  }
}
