/** The booking service: slot times, free desks and the public list, as loops over the tables. */
module Schedule {
  import opened Domain
  import opened Calendar
  import opened Holds
  import opened Booking
  import opened Storage
  import opened RateLimiting

  datatype Slot = Slot(minute: int, start: Instant, available: bool)

  /** How many of the `n` days from `day` on are weekdays. */
  function Weekdays(day: int, n: nat): nat {
    if n == 0 then 0 else Weekdays(day, n - 1) + (if Weekend(day + n - 1) then 0 else 1)
  }

  lemma {:induction false} WeekdaysAdd(day: int, n: nat, m: nat)
    ensures Weekdays(day, n + m) == Weekdays(day, n) + Weekdays(day + n, m)
    decreases m
  {
    if m > 0 { WeekdaysAdd(day, n, m - 1); }
  }

  lemma WeekHasFive(day: int)
    ensures Weekdays(day, 7) == 5
  {
    var r := (day + 4) % 7;
    assert Weekend(day) == (r == 0 || r == 6) && Weekend(day + 1) == (r == 5 || r == 6);
    assert Weekend(day + 2) == (r == 4 || r == 5) && Weekend(day + 3) == (r == 3 || r == 4);
    assert Weekend(day + 4) == (r == 2 || r == 3) && Weekend(day + 5) == (r == 1 || r == 2)
           && Weekend(day + 6) == (r == 0 || r == 1);
    assert Weekdays(day, 1) == (if r == 0 || r == 6 then 0 else 1);
    assert Weekdays(day, 2) == Weekdays(day, 1) + (if r == 5 || r == 6 then 0 else 1);
    assert Weekdays(day, 3) == Weekdays(day, 2) + (if r == 4 || r == 5 then 0 else 1);
    assert Weekdays(day, 4) == Weekdays(day, 3) + (if r == 3 || r == 4 then 0 else 1);
    assert Weekdays(day, 5) == Weekdays(day, 4) + (if r == 2 || r == 3 then 0 else 1);
    assert Weekdays(day, 6) == Weekdays(day, 5) + (if r == 1 || r == 2 then 0 else 1);
  }

  lemma ThreeWeeksHaveFifteen(day: int)
    ensures Weekdays(day, 21) == 15
  {
    WeekHasFive(day);
    WeekHasFive(day + 7);
    WeekHasFive(day + 14);
    WeekdaysAdd(day, 7, 7);
    WeekdaysAdd(day, 14, 7);
  }

  lemma Earlier(dates: seq<int>, i: nat, d: int)
    requires i < |dates| && d in dates && d < dates[i] && forall j, k | 0 <= j < k < |dates| :: dates[j] < dates[k]
    ensures d in dates[..i]
  {
    var j :| 0 <= j < |dates| && dates[j] == d;
    assert dates[..i][j] == d;
  }

  predicate GridAligned(country: Country, minute: int) {
    (minute - WORKDAY_START) % SlotDuration(country) == 0
  }

  /** From one grid time the next is a step away, and none lies between. */
  lemma NextOnGrid(country: Country, from: int)
    requires GridAligned(country, from)
    ensures GridAligned(country, from + SlotDuration(country))
    ensures forall m | OnGrid(country, m) && from <= m < from + SlotDuration(country) :: m == from
  {
    forall m | OnGrid(country, m) && from <= m < from + SlotDuration(country) ensures m == from {
      match country
      case RF => assert (m - WORKDAY_START) / 20 == (from - WORKDAY_START) / 20;
      case CN => assert (m - WORKDAY_START) / 30 == (from - WORKDAY_START) / 30;
    }
  }

  ghost predicate TakenDesk(s: State, q: Request, tickets: set<TicketId>, d: DeskId) {
    exists t :: t in tickets && TicketBlocks(s, q, d, t)
  }

  ghost predicate BlockedDesk(s: State, q: Request, blocks: set<BlockId>, d: DeskId) {
    exists b :: b in blocks && BlockBlocks(s, q, d, b)
  }

  ghost predicate HeldDesk(q: Request, keys: set<Key>, d: DeskId) {
    exists k :: k in keys && HoldBlocks(q, d, k)
  }

  /** A row of the list's query for the day. */
  predicate DayRow(tickets: map<TicketId, Ticket>, q: Request, day: int, t: TicketId) {
    && t in tickets && q.exclude != Some(t)
    && tickets[t].site == q.site && tickets[t].country == Some(q.country) && SlotHolding(tickets[t].status)
    && tickets[t].scheduledAt.Some? && At(day, 0) <= tickets[t].scheduledAt.value < At(day + 1, 0)
  }

  lemma DayTaken(s: State, q: Request, day: int, rows: set<TicketId>, d: DeskId)
    requires forall t :: t in rows <==> DayRow(s.tickets, q, day, t)
    ensures TakenDesk(s, q, rows, d) <==> exists t :: DayTicketBlocks(s, q, day, d, t)
  {
    assert forall t :: t in rows && TicketBlocks(s, q, d, t) <==> DayTicketBlocks(s, q, day, d, t);
  }

  ghost predicate HasDesk(s: State, q: Request) {
    exists d :: Candidate(s, q, d)
  }

  /** A line of the list tells the truth about its time. */
  ghost predicate Truthful(s: State, keys: set<Key>, site: SiteId, country: Country, day: int,
                           exclude: Option<TicketId>, now: Instant, line: Slot) {
    && OnGrid(country, line.minute) && line.start == At(day, line.minute) && now < line.start
    && (line.available <==> DayOpen(s, keys, GridRequest(site, country, day, line.minute, exclude), day))
  }

  predicate Shows(list: seq<Slot>, minute: int) {
    exists i :: 0 <= i < |list| && list[i].minute == minute
  }

  /** The list shows every one of the first `n` times that is still to come. */
  ghost predicate Complete(list: seq<Slot>, times: seq<int>, n: nat, day: int, now: Instant)
    requires n <= |times|
  {
    forall k | 0 <= k < n && now < At(day, times[k]) :: Shows(list, times[k])
  }

  lemma CompleteOneMore(list: seq<Slot>, times: seq<int>, n: nat, day: int, now: Instant, line: Slot)
    requires n < |times| && line.minute == times[n] && Complete(list, times, n, day, now)
    ensures Complete(list + [line], times, n + 1, day, now)
  {
    assert (list + [line])[|list|] == line;
    forall k | 0 <= k < n && now < At(day, times[k]) ensures Shows(list + [line], times[k]) {
      var i :| 0 <= i < |list| && list[i].minute == times[k];
      assert (list + [line])[i] == list[i];
    }
  }

  class BookingService {
    const db: Database
    const redis: RateLimitService

    constructor (db: Database, redis: RateLimitService)
      ensures this.db == db && this.redis == redis
    {
      this.db := db;
      this.redis := redis;
    }

    /** The first `count` weekdays from today on, looking three weeks ahead. */
    method GetAvailableDates(today: int, count: nat) returns (dates: seq<int>)
      ensures |dates| == if count < 15 then count else 15
      ensures forall i | 0 <= i < |dates| :: today <= dates[i] && !Weekend(dates[i])
      ensures forall i, j | 0 <= i < j < |dates| :: dates[i] < dates[j]
      ensures forall i, d | 0 <= i < |dates| && today <= d < dates[i] && !Weekend(d) :: d in dates[..i]
    {
      dates := [];
      var offset := 0;
      while |dates| < count && offset < 21
        invariant 0 <= offset <= 21 && |dates| <= count
        invariant |dates| == Weekdays(today, offset)
        invariant forall i | 0 <= i < |dates| :: today <= dates[i] < today + offset && !Weekend(dates[i])
        invariant forall i, j | 0 <= i < j < |dates| :: dates[i] < dates[j]
        invariant forall d | today <= d < today + offset && !Weekend(d) :: d in dates
      {
        var cursor := today + offset;
        if !Weekend(cursor) { dates := dates + [cursor]; }
        offset := offset + 1;
      }
      ThreeWeeksHaveFifteen(today);
      WeekdaysAdd(today, offset, 21 - offset);
      forall i, d | 0 <= i < |dates| && today <= d < dates[i] && !Weekend(d) ensures d in dates[..i] {
        Earlier(dates, i, d);
      }
    }

    /** The grid of start times of a working day. */
    method GenerateSlotTimes(country: Country) returns (slots: seq<int>)
      ensures forall m :: m in slots <==> OnGrid(country, m)
      ensures forall i, j | 0 <= i < j < |slots| :: slots[i] < slots[j]
    {
      var step := SlotDuration(country);
      slots := [];
      var minutes := WORKDAY_START;
      while minutes + step <= WORKDAY_END
        invariant WORKDAY_START <= minutes <= WORKDAY_END && GridAligned(country, minutes)
        invariant forall m :: m in slots <==> OnGrid(country, m) && m < minutes
        invariant forall i | 0 <= i < |slots| :: slots[i] < minutes
        invariant forall i, j | 0 <= i < j < |slots| :: slots[i] < slots[j]
      {
        NextOnGrid(country, minutes);
        slots := slots + [minutes];
        minutes := minutes + step;
      }
    }

    /** The desks of the given tickets that are in the way. */
    method TakenDesks(q: Request, rows: set<TicketId>) returns (busy: set<DeskId>)
      ensures forall d :: d in busy <==> TakenDesk(db.View(), q, rows, d)
    {
      busy := {};
      var rest := rows;
      while rest != {}
        invariant rest <= rows
        invariant forall d :: d in busy <==> TakenDesk(db.View(), q, rows - rest, d)
        decreases |rest|
      {
        var t :| t in rest;
        ghost var seen := rows - rest;
        assert rows - (rest - {t}) == seen + {t};
        if t in db.tickets && db.tickets[t].reservedDesk.Some? && TicketBlocksRow(q, db.tickets[t], t) {
          busy := busy + {db.tickets[t].reservedDesk.value};
        }
        rest := rest - {t};
        assert forall d :: TakenDesk(db.View(), q, seen + {t}, d) <==>
               (TakenDesk(db.View(), q, seen, d) || TicketBlocks(db.View(), q, d, t));
      }
      assert rows - rest == rows;
    }

    predicate TicketBlocksRow(q: Request, row: Ticket, t: TicketId) {
      && q.exclude != Some(t) && row.site == q.site && row.country == Some(q.country) && SlotHolding(row.status)
      && row.scheduledAt.Some?
      && Overlap(q.start, End(q.start, q.minutes), row.scheduledAt.value, End(row.scheduledAt.value, row.duration))
    }

    /** The desks whose employees have blocked the time. */
    method BlockedDeskIds(q: Request) returns (blocked: set<DeskId>)
      ensures forall d :: d in blocked <==> exists b :: BlockBlocks(db.View(), q, d, b)
    {
      var rows := db.place.blocks.Keys;
      blocked := {};
      var rest := rows;
      while rest != {}
        invariant rest <= rows
        invariant forall d :: d in blocked <==> BlockedDesk(db.View(), q, rows - rest, d)
        decreases |rest|
      {
        var b :| b in rest;
        ghost var seen := rows - rest;
        assert rows - (rest - {b}) == seen + {b};
        var row := db.place.blocks[b];
        if row.site == q.site && row.day == DayOf(q.start)
           && Overlap(q.start, End(q.start, q.minutes), At(row.day, row.from), At(row.day, row.until))
           && row.employee in db.employees && db.employees[row.employee].desk.Some? {
          blocked := blocked + {db.employees[row.employee].desk.value};
        }
        rest := rest - {b};
        assert forall d :: BlockedDesk(db.View(), q, seen + {b}, d) <==>
               (BlockedDesk(db.View(), q, seen, d) || BlockBlocks(db.View(), q, d, b));
      }
      assert rows - rest == rows;
      assert forall d :: BlockedDesk(db.View(), q, rows, d) <==> exists b :: BlockBlocks(db.View(), q, d, b);
    }

    /** Tickets and holds in the way. */
    method BusyDeskIds(q: Request, now: Instant) returns (busy: set<DeskId>)
      modifies redis`index
      ensures redis.View() == Prune(old(redis.View()), now)
      ensures forall d :: d in busy <==>
              (exists t :: TicketBlocks(db.View(), q, d, t)) || HeldDesk(q, Listed(old(redis.View()), now), d)
    {
      ghost var s := db.View();
      var taken := TakenDesks(q, db.tickets.Keys);
      assert forall d :: TakenDesk(s, q, s.tickets.Keys, d) <==> exists t :: TicketBlocks(s, q, d, t);
      var minutes := if q.minutes < 1 then 1 else q.minutes;
      var held := redis.HeldDeskIds(q.start, End(q.start, q.minutes), minutes, now);
      ghost var keys := Listed(old(redis.View()), now);
      assert forall d :: HeldDuring(keys, q.start, End(q.start, q.minutes), minutes, d) <==> HeldDesk(q, keys, d);
      busy := taken + held;
      assert db.View() == s;
      forall d ensures d in busy <==> (exists t :: TicketBlocks(db.View(), q, d, t)) || HeldDesk(q, keys, d) {
        assert d in taken <==> TakenDesk(s, q, s.tickets.Keys, d);
        assert d in held <==> HeldDuring(keys, q.start, End(q.start, q.minutes), minutes, d);
      }
    }

    /** The desks of the request's site and country that nothing is in the way of. */
    method FreeDesks(q: Request, now: Instant) returns (free: set<DeskId>)
      modifies redis`index
      ensures redis.View() == Prune(old(redis.View()), now)
      ensures forall d :: d in free <==> DeskFree(db.View(), Listed(old(redis.View()), now), q, d)
    {
      var busy := BusyDeskIds(q, now);
      var blocked := BlockedDeskIds(q);
      free := set d | d in db.place.desks && db.place.desks[d].site == q.site && db.place.desks[d].active
                      && db.place.desks[d].country == q.country && d !in busy && d !in blocked;
    }

    method IsSlotFree(q: Request, now: Instant) returns (free: bool)
      modifies redis`index
      ensures redis.View() == old(redis.View()) || redis.View() == Prune(old(redis.View()), now)
      ensures free <==> SlotFree(db.View(), Listed(old(redis.View()), now), q)
    {
      var desks := set d | d in db.place.desks && db.place.desks[d].site == q.site && db.place.desks[d].active
                           && db.place.desks[d].country == q.country;
      if desks == {} {
        assert forall d :: Candidate(db.View(), q, d) ==> d in desks;
        return false;
      }
      var frees := FreeDesks(q, now);
      free := frees != {};
    }

    method AssertSlotAvailable(q: Request, now: Instant) returns (r: Result<()>)
      modifies redis`index
      ensures redis.View() == old(redis.View()) || redis.View() == Prune(old(redis.View()), now)
      ensures match SlotError(db.View(), Listed(old(redis.View()), now), q, now)
              case None => r == Ok(())
              case Some(error) => r == Err(error)
    {
      if Weekend(DayOf(q.start)) { return Err(BadRequest); }
      var minutes := MinuteOf(q.start);
      if minutes < WORKDAY_START { return Err(BadRequest); }
      if minutes + q.minutes > WORKDAY_END { return Err(BadRequest); }
      if q.start <= now { return Err(BadRequest); }
      var free := IsSlotFree(q, now);
      if !free { return Err(Conflict); }
      return Ok(());
    }

    method ReserveDesk(q: Request, preferred: Option<DeskId>, now: Instant) returns (r: Result<DeskId>)
      modifies redis`index
      ensures redis.View() == Prune(old(redis.View()), now)
      ensures r.Err? ==> r.error == Conflict && !SlotFree(db.View(), Listed(old(redis.View()), now), q)
      ensures r.Ok? ==> GoodDesk(db.View(), Listed(old(redis.View()), now), q, preferred, r.value)
    {
      var free := FreeDesks(q, now);
      ghost var listed := Listed(old(redis.View()), now);
      if preferred.Some? && preferred.value in free { return Ok(preferred.value); }
      if free == {} { return Err(Conflict); }
      var desks := db.place.desks;
      assert forall f | f in free :: DeskFree(db.View(), listed, q, f) && f in desks;
      ghost var first := Minimal(free, (x, y) => x in desks && y in desks && desks[x].rank < desks[y].rank);
      assert forall f | f in free :: db.place.desks[first].rank <= db.place.desks[f].rank;
      var d :| d in free && forall f | f in free :: db.place.desks[d].rank <= db.place.desks[f].rank;
      return Ok(d);
    }

    /** The desks of the listed holds that are in the way. */
    method HeldDesks(q: Request, keys: set<Key>) returns (busy: set<DeskId>)
      ensures forall d :: d in busy <==> HeldDesk(q, keys, d)
    {
      busy := {};
      var rest := keys;
      while rest != {}
        invariant rest <= keys
        invariant forall d :: d in busy <==> HeldDesk(q, keys - rest, d)
        decreases |rest|
      {
        var k :| k in rest;
        ghost var seen := keys - rest;
        assert keys - (rest - {k}) == seen + {k};
        if HoldBlocks(q, k.desk, k) { busy := busy + {k.desk}; }
        rest := rest - {k};
        assert forall d :: HeldDesk(q, seen + {k}, d) <==> (HeldDesk(q, seen, d) || HoldBlocks(q, d, k));
      }
      assert keys - rest == keys;
    }

    /**
     * One line of the public list: is some desk of the direction free in the day's tickets, the holds and the blocked
     * time?
     */
    method SlotAvailable(q: Request, day: int, desks: set<DeskId>, rows: set<TicketId>, keys: set<Key>)
      returns (available: bool)
      requires forall d :: d in desks <==> Candidate(db.View(), q, d)
      requires forall t :: t in rows <==> DayRow(db.View().tickets, q, day, t)
      ensures available <==> DayOpen(db.View(), keys, q, day)
    {
      ghost var s := db.View();
      var busy := TakenDesks(q, rows);
      var held := HeldDesks(q, keys);
      var blocked := BlockedDeskIds(q);
      var free := set d | d in desks && d !in busy && d !in held && d !in blocked;
      assert db.View() == s;
      forall d ensures d in free <==> ListedFree(s, keys, q, day, d) {
        DayTaken(s, q, day, rows, d);
        assert d in held <==> HeldDesk(q, keys, d);
        assert d in blocked <==> exists b :: BlockBlocks(s, q, d, b);
      }
      available := free != {};
    }

    /** The lines for the given times that are still to come. */
    method DayLines(any: Request, day: int, desks: set<DeskId>, keys: set<Key>, times: seq<int>, now: Instant)
      returns (list: seq<Slot>)
      requires any.minutes == SlotDuration(any.country)
      requires forall d :: d in desks <==> Candidate(db.View(), any, d)
      requires forall i | 0 <= i < |times| :: OnGrid(any.country, times[i])
      requires forall i, j | 0 <= i < j < |times| :: times[i] < times[j]
      ensures forall i | 0 <= i < |list| ::
              Truthful(db.View(), keys, any.site, any.country, day, any.exclude, now, list[i])
      ensures forall i, j | 0 <= i < j < |list| :: list[i].minute < list[j].minute
      ensures if desks == {} then list == [] else Complete(list, times, |times|, day, now)
    {
      ghost var s := db.View();
      var rows := set t | t in db.tickets && DayRow(db.tickets, any, day, t);
      list := [];
      for n := 0 to |times|
        invariant forall i | 0 <= i < |list| :: Truthful(s, keys, any.site, any.country, day, any.exclude, now, list[i])
        invariant forall i, j | 0 <= i < j < |list| :: list[i].minute < list[j].minute
        invariant forall i, k | 0 <= i < |list| && n <= k < |times| :: list[i].minute < times[k]
        invariant if desks == {} then list == [] else Complete(list, times, n, day, now)
      {
        var start := At(day, times[n]);
        if now < start && desks != {} {
          var q := GridRequest(any.site, any.country, day, times[n], any.exclude);
          var available := SlotAvailable(q, day, desks, rows, keys);
          var line := Slot(times[n], start, available);
          assert db.View() == s;
          assert Truthful(s, keys, any.site, any.country, day, any.exclude, now, line);
          CompleteOneMore(list, times, n, day, now, line);
          list := list + [line];
        }
      }
    }

    /** The slots of a day that can still be booked, in order, each with whether a desk is free. */
    method ListAvailableSlots(site: SiteId, country: Country, day: int, exclude: Option<TicketId>, now: Instant)
      returns (list: seq<Slot>)
      modifies redis`index
      ensures Weekend(day) ==> list == []
      ensures forall i | 0 <= i < |list| ::
              Truthful(db.View(), Listed(old(redis.View()), now), site, country, day, exclude, now, list[i])
      ensures forall i, j | 0 <= i < j < |list| :: list[i].minute < list[j].minute
      ensures !Weekend(day) ==>
                if HasDesk(db.View(), GridRequest(site, country, day, WORKDAY_START, exclude))
                then forall m | OnGrid(country, m) && now < At(day, m) :: Shows(list, m)
                else list == []
    {
      if Weekend(day) { return []; }
      var any := GridRequest(site, country, day, WORKDAY_START, exclude);
      var desks := set d | d in db.place.desks && db.place.desks[d].site == site && db.place.desks[d].active
                           && db.place.desks[d].country == country;
      ghost var s := db.View();
      assert forall d :: d in desks <==> Candidate(s, any, d);
      assert desks != {} <==> HasDesk(s, any);
      var times := GenerateSlotTimes(country);
      assert forall i | 0 <= i < |times| :: times[i] in times;
      var keys := redis.ListHolds(now);
      assert db.View() == s;
      list := DayLines(any, day, desks, keys, times, now);
      assert db.View() == s && (desks != {} <==> HasDesk(s, any));
    }
  }
}
