/** Concrete databases in which a guarantee is lost once its condition is. */
module Counterexamples {
  import opened Domain
  import opened Calendar
  import opened Holds
  import opened Tables
  import opened Dispatch
  import opened Booking
  import opened Office
  import opened Appointments
  import opened SlotHistories
  import opened HoldPromise

  const ONE_DESK := Premises(map[0 := Desk(0, RF, true, 0)], map[], {0}, map[0 := 0], 1, 0)

  // Monday 5 January 1970, nine o'clock in Moscow.
  const NINE := At(4, 540)

  function Guest(status: TicketStatus, start: Instant): Ticket {
    Ticket(status, 0, 0, 0, 0, Some(RF), "79000000000", Some(start), None, 20, Some(0), 0)
  }

  // Employee 1 has called ticket 0 and declared itself available again; employee 2 has no desk yet.
  const CALLED_AND_AVAILABLE := State(
    map[0 := Guest(Called, NINE), 1 := Guest(Booked, NINE + 20 * MINUTE)],
    map[1 := Employee(Staff, Available, Some(0), Some(0), Some(RF), []),
        2 := Employee(Staff, Offline, Some(0), None, None, [])],
    map[0 := Assignment(0, 1, Some(0), true, Some(NINE), None, None)],
    ONE_DESK, 2, 1)

  lemma CalledAndAvailableSafe()
    ensures Safe(CALLED_AND_AVAILABLE) && DesksAgree(CALLED_AND_AVAILABLE)
  {
    assert ActiveFor(CALLED_AND_AVAILABLE, 0, 0);
  }

  const SWITCHED_OFF := CALLED_AND_AVAILABLE.(
    employees := map[1 := Employee(Staff, Available, Some(0), None, Some(RF), []),
                     2 := Employee(Staff, Offline, Some(0), None, None, [])],
    place := ONE_DESK.(desks := map[0 := Desk(0, RF, false, 0)]))

  const SWITCHED_ON := SWITCHED_OFF.(place := ONE_DESK)

  const SEATED := SWITCHED_ON.(
    employees := SWITCHED_ON.employees[2 := Employee(Staff, Offline, Some(0), Some(0), Some(RF), [])])

  lemma DeskDeleted()
    ensures DeleteDesk(CALLED_AND_AVAILABLE, 0) == Ok(SWITCHED_OFF)
  {
    var s := CALLED_AND_AVAILABLE;
    assert 0 in s.assignments && HasHistory(s, 0);
    assert (map e | e in s.employees :: WithoutDesk(s.employees[e], 0)) == SWITCHED_OFF.employees;
    assert DeleteDesk(s, 0).Ok?;
    assert DeleteDesk(s, 0).value.employees == SWITCHED_OFF.employees;
    assert DeleteDesk(s, 0).value.place == SWITCHED_OFF.place;
  }

  lemma DeskReused(now: Instant)
    ensures UpdateDesk(SWITCHED_OFF, 0, DeskPatch(None, Some(true), None)) == Ok(SWITCHED_ON)
    ensures References(SWITCHED_ON) && SetDesk(SWITCHED_ON, 2, Some(0), now) == Ok(SEATED)
  {
    assert SWITCHED_OFF.place.desks[0 := Desk(0, RF, true, 0)] == ONE_DESK.desks;
    assert Idle(SWITCHED_ON, 2) by { assert forall a | IsActive(SWITCHED_ON, a) :: a == 0; }
    assert forall f | SeatedAt(SWITCHED_ON, f, 0) :: f == 2;
  }

  /**
   * A desk deleted under an available employee who still has an assignment, switched on again and given to somebody
   * else ends with two active assignments.
   */
  lemma TwoAtOneDesk(now: Instant)
    ensures Safe(CALLED_AND_AVAILABLE) && DesksAgree(CALLED_AND_AVAILABLE)
    ensures DeleteDesk(CALLED_AND_AVAILABLE, 0) == Ok(SWITCHED_OFF)
    ensures UpdateDesk(SWITCHED_OFF, 0, DeskPatch(None, Some(true), None)) == Ok(SWITCHED_ON)
    ensures References(SWITCHED_ON) && SetDesk(SWITCHED_ON, 2, Some(0), now) == Ok(SEATED)
    ensures References(SEATED) && ManagerChange(SEATED, 2, 1, Called, now).Ok?
    ensures var s := ManagerChange(SEATED, 2, 1, Called, now).value.tables;
            IsActive(s, 0) && IsActive(s, 1) && s.assignments[0].desk == s.assignments[1].desk == Some(0)
  {
    CalledAndAvailableSafe();
    DeskDeleted();
    DeskReused(now);
    SecondCall(now);
  }

  lemma SecondCall(now: Instant)
    ensures References(SEATED) && ManagerChange(SEATED, 2, 1, Called, now).Ok?
    ensures var s := ManagerChange(SEATED, 2, 1, Called, now).value.tables;
            IsActive(s, 0) && IsActive(s, 1) && s.assignments[0].desk == s.assignments[1].desk == Some(0)
  {
    assert forall a | IsActive(SEATED, a) :: a == 0;
    assert Idle(SEATED, 2) && Unassigned(SEATED, 1);
  }

  const EMPTY := State(map[], map[], map[], ONE_DESK, 0, 0)

  // Ticket 0 is booked for the twenty minutes from 9:20.
  const BOOKED := EMPTY.(tickets := map[0 := Guest(Booked, NINE + 20 * MINUTE)], nextTicket := 1)

  const BOOKED_ELSEWHERE := BOOKED.(place := ONE_DESK.(desks := map[0 := Desk(0, CN, true, 0)]))

  lemma DeskChangesCountry()
    ensures UpdateDesk(BOOKED, 0, DeskPatch(None, None, Some(CN))) == Ok(BOOKED_ELSEWHERE)
  {
    assert BOOKED.place.desks[0 := Desk(0, CN, true, 0)] == BOOKED_ELSEWHERE.place.desks;
  }

  /**
   * A desk with a booking from 9:20 to 9:40 is given the other country. Requests for the new country do not see the
   * booking, so half an hour from 9:00 is booked over it; the starts differ, and the index lets it in.
   */
  lemma CountryChangeOverlaps()
    ensures SlotsSafe(BOOKED) && UpdateDesk(BOOKED, 0, DeskPatch(None, None, Some(CN))) == Ok(BOOKED_ELSEWHERE)
    ensures var f := Form(0, 0, CN, Some("79111111111"), NINE);
            var outcome := Book(BOOKED_ELSEWHERE, {}, f, "79111111111", 0, 0, Conflict);
            && GoodBooking(BOOKED_ELSEWHERE, {}, f, None, 0, 0)
            && outcome.Ok? && Collide(outcome.value.tickets[0], outcome.value.tickets[1]) && !Disjoint(outcome.value)
  {
    AtIsOf(4, 540);
    AtIsOf(4, 560);
    DeskChangesCountry();
    var s := BOOKED_ELSEWHERE;
    var f := Form(0, 0, CN, Some("79111111111"), NINE);
    assert DeskFree(s, {}, RequestOf(f), 0);
    var s' := Book(s, {}, f, "79111111111", 0, 0, Conflict).value;
    assert IsOpen(s', 0) && IsOpen(s', 1);
  }

  /**
   * Two sessions may both find desk 0 free before either takes its hold. The keys differ, so both are taken and
   * the live holds overlap; only the booking check, which sees them, keeps the appointments apart.
   */
  lemma HoldsMayOverlap()
    ensures var s := EMPTY;
            var first, second := Request(0, RF, NINE, 20, None), Request(0, RF, NINE + 10 * MINUTE, 20, None);
            && SlotError(s, {}, first, 0).None? && GoodDesk(s, {}, first, None, 0)
            && SlotError(s, {}, second, 0).None? && GoodDesk(s, {}, second, None, 0)
            && var (r, one) := HoldSlot(EMPTY_STORE, "a", Key(0, NINE), "1", 0, 0);
               var (r', two) := HoldSlot(r, "b", Key(0, NINE + 10 * MINUTE), "2", 0, 0);
               && one && two && LiveHold(r', Key(0, NINE), 0) && LiveHold(r', Key(0, NINE + 10 * MINUTE), 0)
               && !SlotFree(s, Listed(r', 0) - {Key(0, NINE)}, first)
  {
    AtIsOf(4, 540);
    AtIsOf(4, 550);
    var s := EMPTY;
    var first, second := Request(0, RF, NINE, 20, None), Request(0, RF, NINE + 10 * MINUTE, 20, None);
    assert DeskFree(s, {}, first, 0) && DeskFree(s, {}, second, 0);
    var r0 := HoldSlot(EMPTY_STORE, "a", Key(0, NINE), "1", 0, 0).0;
    var r := HoldSlot(r0, "b", Key(0, NINE + 10 * MINUTE), "2", 0, 0).0;
    assert Key(0, NINE + 10 * MINUTE) in Listed(r, 0) - {Key(0, NINE)};
    assert HoldBlocks(first, 0, Key(0, NINE + 10 * MINUTE));
  }

  // Session "a" takes nine o'clock at desk 0 at instant 0, and again a millisecond later, when TTL answers `ttl`.
  function HeldTwice(ttl: int): Store {
    HoldSlot(HoldSlot(EMPTY_STORE, "a", Key(0, NINE), "1", 0, 0).0, "a", Key(0, NINE), "2", ttl, 1).0
  }

  /** Two calls of one session for the same slot, a millisecond apart: no answer of TTL restores the score. */
  lemma SecondsLoseTheScore(ttl: int)
    requires TtlReading(HoldSlot(EMPTY_STORE, "a", Key(0, NINE), "1", 0, 0).0, Key(0, NINE), ttl, 1)
    ensures ttl == 179 || ttl == 180
    ensures var r := HeldTwice(ttl);
            && InSync(r, 1) && LiveHold(r, Key(0, NINE), 1) && r.holds[Key(0, NINE)].deadline == 180_000
            && r.index[Key(0, NINE)] == 1 + 1000 * ttl && !Exact(r, 1)
  {
    var first := HoldSlot(EMPTY_STORE, "a", Key(0, NINE), "1", 0, 0).0;
    assert LiveHold(first, Key(0, NINE), 1) && InSync(first, 0) by {
      HoldSlotKeeps(EMPTY_STORE, "a", Key(0, NINE), "1", 0, 0);
    }
    Later(first, 0, 1);
    HoldSlotKeeps(first, "a", Key(0, NINE), "2", ttl, 1);
    assert Key(0, NINE) in Index(HeldTwice(ttl), 1);
  }

  /** With the shorter answer the hold is off the list half a second before it dies, and its time is booked. */
  lemma LastSecondBooked()
    ensures var r, f := HeldTwice(179), Form(0, 0, RF, Some("79111111111"), NINE);
            && LiveHold(r, Key(0, NINE), 179_500) && Key(0, NINE) !in Listed(r, 179_500)
            && GoodBooking(EMPTY, Listed(r, 179_500), f, None, 179_500, 0)
            && Book(EMPTY, Listed(r, 179_500), f, "79111111111", 179_500, 0, DatabaseError).Ok?
  {
    AtIsOf(4, 540);
    var r, f := HeldTwice(179), Form(0, 0, RF, Some("79111111111"), NINE);
    SecondsLoseTheScore(179);
    assert Listed(r, 179_500) == {};
    assert DeskFree(EMPTY, Listed(r, 179_500), RequestOf(f), 0);
  }

  /**
   * Nine o'clock is held at desk 0, whose next booking is at 9:20: it is clear. The desk is given half-hour slots, and
   * without anything being placed in it the held time runs into the booking.
   */
  lemma HeldTimeGrows()
    ensures ClearOf(BOOKED, Key(0, NINE))
    ensures UpdateDesk(BOOKED, 0, DeskPatch(None, None, Some(CN))) == Ok(BOOKED_ELSEWHERE)
    ensures !ClearOf(BOOKED_ELSEWHERE, Key(0, NINE))
  {
    DeskChangesCountry();
    assert 0 in BOOKED_ELSEWHERE.tickets && !LeavesFree(BOOKED_ELSEWHERE, Key(0, NINE), 0);
  }

  /** Nine o'clock is chosen at a free desk, booked by somebody else and then held all the same. */
  lemma BookedBeforeTaken()
    ensures var q, k := Request(0, RF, NINE, 20, None), Key(0, NINE);
            var f := Form(0, 0, RF, Some("79111111111"), NINE);
            var outcome := Book(EMPTY, {}, f, "79111111111", 0, 0, DatabaseError);
            && SlotError(EMPTY, {}, q, 0).None? && GoodDesk(EMPTY, {}, q, None, 0) && ClearOf(EMPTY, k)
            && GoodBooking(EMPTY, {}, f, None, 0, 0) && outcome.Ok?
            && var (r, taken) := HoldSlot(EMPTY_STORE, "a", k, "1", 0, 0);
               taken && LiveHold(r, k, 0) && !ClearOf(outcome.value, k)
  {
    AtIsOf(4, 540);
    var q, f := Request(0, RF, NINE, 20, None), Form(0, 0, RF, Some("79111111111"), NINE);
    assert DeskFree(EMPTY, {}, q, 0) && RequestOf(f) == q;
    var s' := Book(EMPTY, {}, f, "79111111111", 0, 0, DatabaseError).value;
    assert 0 in s'.tickets && !LeavesFree(s', Key(0, NINE), 0);
  }

  const SECOND_DESK := ONE_DESK.(desks := map[0 := Desk(0, RF, true, 0), 1 := Desk(1, RF, true, 0)], nextDesk := 2)

  // One phone has ticket 0 at 9:20 at desk 0 and ticket 1 at 10:00.
  const TWICE_A_DAY := State(
    map[0 := Guest(Booked, NINE + 20 * MINUTE), 1 := Guest(Booked, NINE + 60 * MINUTE)], map[], map[],
    SECOND_DESK, 2, 0)

  /** The second is moved to 9:20, where the other desk is free: nobody looks whether the phone has a ticket then. */
  lemma MovedOntoPhone()
    ensures PhonesUnique(TWICE_A_DAY)
    ensures GoodDesk(TWICE_A_DAY, {}, MoveRequest(TWICE_A_DAY, 1, NINE + 20 * MINUTE), None, 1)
    ensures var outcome := Reschedule(TWICE_A_DAY, EMPTY_STORE, 1, NINE + 20 * MINUTE, 0, 1);
            outcome.Ok? && SamePhone(outcome.value.tickets[0], outcome.value.tickets[1]) && !PhonesUnique(outcome.value)
  {
    AtIsOf(4, 560);
    var s, start := TWICE_A_DAY, NINE + 20 * MINUTE;
    var q := MoveRequest(s, 1, start);
    assert Listed(EMPTY_STORE, 0) == {};
    assert TicketBlocks(s, q, 0, 0);
    assert DeskFree(s, {}, q, 1) && forall f | DeskFree(s, {}, q, f) :: f == 1;
    var s' := Reschedule(s, EMPTY_STORE, 1, start, 0, 1).value;
    assert IsOpen(s', 0) && IsOpen(s', 1);
  }
}
