/** The holds along whole runs: when the sorted set is exact, and when live holds at a desk keep apart. */
module HoldHistories {
  import opened Domain
  import opened Calendar
  import opened Holds
  import opened Booking
  import opened Office
  import opened Runs

  // ----- the sorted set -----

  /** A session takes its own slot again when the time left is no whole number of seconds. */
  predicate Misaligned(r: Store, h: HoldStep, now: Instant) {
    h.Holds? && LiveHold(r, h.k, now) && r.holds[h.k].session == h.session && !WholeSeconds(r, h.k, now)
  }

  lemma KeepExact(r: Store, h: HoldStep, now: Instant)
    requires InSync(r, now) && HoldLegal(r, h, now) && Exact(r, now)
    ensures Exact(Keep(r, h, now), now) <==> !Misaligned(r, h, now)
  {
    match h
    case Holds(session, k, id, ttl) => HoldSlotExact(r, session, k, id, ttl, now);
    case Refreshes(session, id) => RefreshHoldKeeps(r, session, id, now);
    case Lists => PruneKeeps(r, now);
  }

  lemma NextExact(y: System, o: Occurrence)
    requires Good(y) && Legal(y, o) && Exact(y.redis, y.clock)
    ensures Exact(Next(y, o).redis, o.now) <==> !(o.event.OnHolds? && Misaligned(y.redis, o.event.h, o.now))
  {
    Later(y.redis, y.clock, o.now);
    match o.event
    case OnHolds(h) => KeepExact(y.redis, h, o.now);
    case AtDesk(b) => ArrangeInSync(y.db, y.redis, b, o.now);
    case _ =>
  }

  ghost predicate ExactThroughout(y: System, run: seq<Occurrence>)
    requires Good(y) && LegalRun(y, run)
    decreases |run|
  {
    Exact(y.redis, y.clock) && (run == [] || (NextGood(y, run[0]); ExactThroughout(Next(y, run[0]), run[1..])))
  }

  ghost predicate Aligned(y: System, run: seq<Occurrence>)
    requires Good(y) && LegalRun(y, run)
    decreases |run|
  {
    run == []
    || (!(run[0].event.OnHolds? && Misaligned(y.redis, run[0].event.h, run[0].now))
        && (NextGood(y, run[0]); Aligned(Next(y, run[0]), run[1..])))
  }

  /**
   * In every state of a run the sorted set agrees with the live keys to the millisecond, exactly as long as TTL's
   * seconds lose nothing.
   */
  lemma {:induction false} RunExact(y: System, run: seq<Occurrence>)
    requires Good(y) && LegalRun(y, run) && Exact(y.redis, y.clock)
    ensures ExactThroughout(y, run) <==> Aligned(y, run)
    decreases |run|
  {
    if run != [] {
      NextGood(y, run[0]);
      NextExact(y, run[0]);
      if Exact(Next(y, run[0]).redis, run[0].now) { RunExact(Next(y, run[0]), run[1..]); }
    }
  }

  /**
   * In every reachable state each live hold is its session's only one, the session's key names it, and it is younger
   * than 360 seconds.
   */
  lemma ReachableHolds(y: System, run: seq<Occurrence>, k: Key)
    requires Good(y) && LegalRun(y, run) && LiveHold(Run(y, run).redis, k, Run(y, run).clock)
    ensures var r, now := Run(y, run).redis, Run(y, run).clock;
            var h := r.holds[k];
            && SessionHold(r, h.session, now) == Some(k) && r.pointers[h.session].deadline == h.deadline
            && (forall j | LiveHold(r, j, now) && r.holds[j].session == h.session :: j == k)
            && now < h.deadline < h.born + 360_000
  {
    RunSafe(y, run);
    var r, now := Run(y, run).redis, Run(y, run).clock;
    HoldBound(r, now, k);
    forall j | LiveHold(r, j, now) && r.holds[j].session == r.holds[k].session ensures j == k {
      OneHoldEach(r, now, j, k);
    }
    OneHoldEach(r, now, k, k);
  }

  // ----- holds that keep apart -----

  /** How long a hold at the desk stands for: a slot of the desk's country. */
  function HoldMinutes(place: Premises, d: DeskId): nat {
    if d in place.desks then SlotDuration(place.desks[d].country) else 0
  }

  /** The two held times overlap at one desk. */
  predicate Clash(place: Premises, j: Key, k: Key) {
    && j.desk == k.desk
    && Overlap(j.time, End(j.time, HoldMinutes(place, j.desk)), k.time, End(k.time, HoldMinutes(place, k.desk)))
  }

  ghost predicate Apart(place: Premises, r: Store, now: Instant) {
    forall j, k | LiveHold(r, j, now) && LiveHold(r, k, now) && j != k :: !Clash(place, j, k)
  }

  /** Another session's live hold overlaps the time that is to be held. */
  predicate Crosses(place: Premises, r: Store, s: SessionId, k: Key, now: Instant, j: Key) {
    LiveHold(r, j, now) && r.holds[j].session != s && Clash(place, j, k)
  }

  ghost predicate Crossed(place: Premises, r: Store, s: SessionId, k: Key, now: Instant) {
    exists j :: Crosses(place, r, s, k, now, j)
  }

  // After a free key is taken, the live holds are it and the other sessions'.
  lemma LiveAfterTaking(r: Store, s: SessionId, k: Key, id: HoldId, ttl: int, now: Instant, j: Key)
    requires InSync(r, now) && !LiveHold(r, k, now)
    ensures LiveHold(HoldSlot(r, s, k, id, ttl, now).0, j, now) <==>
            j == k || (LiveHold(r, j, now) && r.holds[j].session != s)
  {
    ForgetKeeps(r, s, now);
    if j != k && LiveHold(r, j, now) && r.holds[j].session != s {
      HoldSlotLeavesOthers(r, s, k, id, ttl, now, j);
    }
  }

  /**
   * Taking a free key keeps live holds apart exactly when no live hold of another session overlaps it: what the
   * second step of holdSlot does not look at again.
   */
  lemma HoldSlotApart(place: Premises, r: Store, s: SessionId, k: Key, id: HoldId, ttl: int, now: Instant)
    requires InSync(r, now) && Apart(place, r, now) && !LiveHold(r, k, now)
    ensures Apart(place, HoldSlot(r, s, k, id, ttl, now).0, now) <==> !Crossed(place, r, s, k, now)
  {
    var r' := HoldSlot(r, s, k, id, ttl, now).0;
    forall j ensures LiveHold(r', j, now) <==> j == k || (LiveHold(r, j, now) && r.holds[j].session != s) {
      LiveAfterTaking(r, s, k, id, ttl, now, j);
    }
    if j :| Crosses(place, r, s, k, now, j) {
      assert LiveHold(r', j, now) && LiveHold(r', k, now);
    } else {
      forall j | LiveHold(r', j, now) && j != k ensures !Clash(place, j, k) && !Clash(place, k, j) {
        assert !Crosses(place, r, s, k, now, j);
      }
    }
  }

  // No hold is live after the step that was not live before.
  ghost predicate NoNewHold(r: Store, r': Store, now: Instant) {
    forall k | LiveHold(r', k, now) :: LiveHold(r, k, now)
  }

  lemma FewerApart(place: Premises, r: Store, r': Store, now: Instant)
    requires Apart(place, r, now) && NoNewHold(r, r', now)
    ensures Apart(place, r', now)
  {
  }

  /** The step takes a free key whose time another session's live hold overlaps. */
  ghost predicate TakesCrossed(y: System, o: Occurrence) {
    && o.event.OnHolds? && o.event.h.Holds? && !LiveHold(y.redis, o.event.h.k, o.now)
    && Crossed(y.db.place, y.redis, o.event.h.session, o.event.h.k, o.now)
  }

  /** The step gives a desk longer slots, and one live hold at it starts within the longer slot of another. */
  ghost predicate Stretches(y: System, o: Occurrence) {
    && o.event.InOffice? && o.event.o.PatchesDesk? && UpdateDesk(y.db, o.event.o.d, o.event.o.patch).Ok?
    && var d := o.event.o.d;
       var patched := Patched(y.db.place.desks[d], o.event.o.patch);
       exists j, k :: LiveHold(y.redis, j, o.now) && LiveHold(y.redis, k, o.now) && j.desk == d && k.desk == d
                      && j.time < k.time < End(j.time, SlotDuration(patched.country))
  }

  /** Every live hold is at a desk that was once created. */
  ghost predicate HeldDesksIssued(y: System) {
    forall k | LiveHold(y.redis, k, y.clock) :: k.desk < y.db.place.nextDesk
  }

  ghost predicate HoldsApart(y: System) {
    HeldDesksIssued(y) && Apart(y.db.place, y.redis, y.clock)
  }

  lemma KeepApart(place: Premises, r: Store, h: HoldStep, now: Instant)
    requires InSync(r, now) && Apart(place, r, now)
    ensures Apart(place, Keep(r, h, now), now)
            <==> !(h.Holds? && !LiveHold(r, h.k, now) && Crossed(place, r, h.session, h.k, now))
  {
    if h.Holds? && !LiveHold(r, h.k, now) {
      HoldSlotApart(place, r, h.session, h.k, h.id, h.ttl, now);
    } else {
      FewerApart(place, r, Keep(r, h, now), now);
    }
  }

  lemma KeepIssued(y: System, h: HoldStep, now: Instant)
    requires HeldDesksIssued(y) && y.clock <= now && (h.Holds? ==> h.k.desk < y.db.place.nextDesk)
    ensures forall k | LiveHold(Keep(y.redis, h, now), k, now) :: k.desk < y.db.place.nextDesk
  {
    assert forall k | LiveHold(Keep(y.redis, h, now), k, now) :: (h.Holds? && k == h.k) || LiveHold(y.redis, k, now);
    assert forall k | LiveHold(y.redis, k, now) :: LiveHold(y.redis, k, y.clock);
  }

  // Desks that come or go change nothing between the holds; only a change of country does.
  lemma PatchApart(s: State, r: Store, d: DeskId, patch: DeskPatch, now: Instant)
    requires Apart(s.place, r, now) && UpdateDesk(s, d, patch).Ok?
    ensures Apart(UpdateDesk(s, d, patch).value.place, r, now)
            <==> !Stretches(System(s, r, now), Happens(now, InOffice(PatchesDesk(d, patch))))
  {
    var place := UpdateDesk(s, d, patch).value.place;
    forall j, k | LiveHold(r, j, now) && LiveHold(r, k, now) && j != k && j.desk == k.desk
      ensures !Clash(place, j, k) || Stretches(System(s, r, now), Happens(now, InOffice(PatchesDesk(d, patch))))
    {
      assert !Clash(s.place, j, k);
    }
    if j, k :| LiveHold(r, j, now) && LiveHold(r, k, now) && j.desk == d && k.desk == d
               && j.time < k.time < End(j.time, SlotDuration(Patched(s.place.desks[d], patch).country)) {
      assert Clash(place, j, k);
    }
  }

  lemma AdministerChangesNoDesk(s: State, o: OfficeStep)
    requires DesksIssued(s) && Administer(s, o).Ok? && !o.PatchesDesk?
    ensures forall d | d in Administer(s, o).value.place.desks && d < s.place.nextDesk :: d in s.place.desks
    ensures forall d | d in Administer(s, o).value.place.desks && d < s.place.nextDesk ::
              Administer(s, o).value.place.desks[d].country == s.place.desks[d].country
  {
  }

  lemma OtherOfficeApart(place: Premises, place': Premises, r: Store, now: Instant)
    requires Apart(place, r, now) && (forall k | LiveHold(r, k, now) :: k.desk < place.nextDesk)
    requires forall d | d in place'.desks && d < place.nextDesk :: d in place.desks
    requires forall d | d in place'.desks && d < place.nextDesk :: place'.desks[d].country == place.desks[d].country
    ensures Apart(place', r, now)
  {
    forall j, k | LiveHold(r, j, now) && LiveHold(r, k, now) && j != k ensures !Clash(place', j, k) {
      assert !Clash(place, j, k);
    }
  }

  lemma OfficeApart(y: System, o: Occurrence)
    requires Good(y) && Legal(y, o) && o.event.InOffice? && HeldDesksIssued(y) && Apart(y.db.place, y.redis, o.now)
    ensures Apart(Next(y, o).db.place, y.redis, o.now) <==> !Stretches(y, o)
  {
    var step := o.event.o;
    if Administer(y.db, step).Ok? {
      if step.PatchesDesk? {
        PatchApart(y.db, y.redis, step.d, step.patch, o.now);
      } else {
        AdministerChangesNoDesk(y.db, step);
        assert forall k | LiveHold(y.redis, k, o.now) :: LiveHold(y.redis, k, y.clock);
        OtherOfficeApart(y.db.place, Administer(y.db, step).value.place, y.redis, o.now);
      }
    }
  }

  /** Before anybody comes, no hold is alive and the sorted set is exact. */
  lemma InitialHolds(y: System)
    requires Initial(y)
    ensures Good(y) && HoldsApart(y) && Exact(y.redis, y.clock)
  {
    InitialGood(y);
  }

  lemma NextIssued(y: System, o: Occurrence)
    requires Good(y) && Legal(y, o) && HeldDesksIssued(y)
    ensures HeldDesksIssued(Next(y, o))
  {
    assert forall k | LiveHold(y.redis, k, o.now) :: LiveHold(y.redis, k, y.clock);
    match o.event
    case OnQueue(q) =>
      if Queue(y.db, q, o.now).Ok? { QueueKeeps(y.db, q, o.now); }
    case InOffice(step) =>
      if Administer(y.db, step).Ok? { AdministerPlaces(y.db, step); }
    case OnHolds(h) => KeepIssued(y, h, o.now);
    case AtDesk(b) => ArrangeTakesNone(y.db, y.redis, b, o.now);
  }

  lemma ArrangeTakesNone(s: State, r: Store, b: BookStep, now: Instant)
    ensures NoNewHold(r, Arrange(s, r, b, now).0, now)
    ensures Arrange(s, r, b, now).1.Ok? ==> Arrange(s, r, b, now).1.value.place == s.place
  {
  }

  lemma NextApart(y: System, o: Occurrence)
    requires Good(y) && Legal(y, o) && HoldsApart(y)
    ensures HoldsApart(Next(y, o)) <==> !TakesCrossed(y, o) && !Stretches(y, o)
  {
    NextIssued(y, o);
    Later(y.redis, y.clock, o.now);
    assert Apart(y.db.place, y.redis, o.now) by {
      assert forall k | LiveHold(y.redis, k, o.now) :: LiveHold(y.redis, k, y.clock);
    }
    match o.event
    case OnQueue(q) =>
      if Queue(y.db, q, o.now).Ok? { QueueKeeps(y.db, q, o.now); }
    case InOffice(_) => OfficeApart(y, o);
    case OnHolds(h) => KeepApart(y.db.place, y.redis, h, o.now);
    case AtDesk(b) =>
      ArrangeTakesNone(y.db, y.redis, b, o.now);
      FewerApart(y.db.place, y.redis, Next(y, o).redis, o.now);
  }

  ghost predicate ApartThroughout(y: System, run: seq<Occurrence>)
    requires Good(y) && LegalRun(y, run)
    decreases |run|
  {
    HoldsApart(y) && (run == [] || (NextGood(y, run[0]); ApartThroughout(Next(y, run[0]), run[1..])))
  }

  ghost predicate NoneCrossed(y: System, run: seq<Occurrence>)
    requires Good(y) && LegalRun(y, run)
    decreases |run|
  {
    run == []
    || (!TakesCrossed(y, run[0]) && !Stretches(y, run[0])
        && (NextGood(y, run[0]); NoneCrossed(Next(y, run[0]), run[1..])))
  }

  /**
   * Live holds at a desk keep apart in every state of a run, exactly as long as no key is taken across another
   * session's live hold and no desk is given longer slots under holds too close for them.
   */
  lemma {:induction false} RunApart(y: System, run: seq<Occurrence>)
    requires Good(y) && LegalRun(y, run) && HoldsApart(y)
    ensures ApartThroughout(y, run) <==> NoneCrossed(y, run)
    decreases |run|
  {
    if run != [] {
      NextGood(y, run[0]);
      NextApart(y, run[0]);
      if HoldsApart(Next(y, run[0])) { RunApart(Next(y, run[0]), run[1..]); }
    }
  }

  /** A key chosen by the check in the very state in which it is taken crosses no hold the check can see. */
  lemma FreshChoiceNotCrossed(s: State, r: Store, session: SessionId, q: Request, d: DeskId, now: Instant, j: Key)
    requires DeskFree(s, Listed(r, now), q, d) && q.minutes == SlotDuration(q.country)
    requires Crosses(s.place, r, session, Key(d, q.start), now, j)
    ensures j !in Listed(r, now)
  {
    if j in Listed(r, now) { PlacedClearOfHolds(s, Listed(r, now), q, d, j); }
  }
}
