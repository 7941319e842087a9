/** Nobody waits for an answer the database cannot give: every request is a step in every state. */
module Requests {
  import opened Domain
  import opened Holds
  import opened Tables
  import opened Dispatch
  import opened Sweeps
  import opened Booking
  import opened Appointments
  import opened Runs

  /** The two events are the same request; what the database and the store answer may differ. */
  predicate SameRequest(x: Event, y: Event) {
    match (x, y)
    case (OnQueue(ChecksIn(t, _)), OnQueue(ChecksIn(u, _))) => t == u
    case (OnQueue(ManagerSets(user, t, status, _)), OnQueue(ManagerSets(other, u, status', _))) =>
      user == other && t == u && status == status'
    case (OnQueue(Turns(user, status, _)), OnQueue(Turns(other, turned, _))) => user == other && status == turned
    case (OnQueue(Dispatches(e, _)), OnQueue(Dispatches(f, _))) => e == f
    case (InOffice(Ensures(e, role, _)), InOffice(Ensures(f, role', _))) => e == f && role == role'
    case (OnHolds(Holds(s, k, id, _)), OnHolds(Holds(s', k', id', _))) => s == s' && k == k' && id == id'
    case (AtDesk(Creates(f, s, id, _)), AtDesk(Creates(f', s', id', _))) => f == f' && s == s' && id == id'
    case (AtDesk(WalksIn(f, _)), AtDesk(WalksIn(f', _))) => f == f'
    case (AtDesk(Moves(t, start, _)), AtDesk(Moves(u, start', _))) => t == u && start == start'
    case _ => x == y
  }

  /** What people ask for. The sweeps, the timeout and the purge are not asked for; a hold is for a desk there was. */
  predicate Asked(y: System, e: Event) {
    match e
    case OnQueue(q) =>
      && !q.CallsExpire? && !q.SweepsMissed? && !q.Purges?
      && (q.Turns? ==> q.turned in {Available, Paused, Offline})
    case OnHolds(h) => h.Holds? ==> h.k.desk < y.db.place.nextDesk
    case _ => true
  }

  lemma {:induction false} Listing(who: set<EmployeeId>) returns (order: seq<EmployeeId>)
    ensures forall e :: e in order <==> e in who
  {
    if who == {} {
      order := [];
    } else {
      var e :| e in who;
      var rest := Listing(who - {e});
      order := [e] + rest;
    }
  }

  lemma TailAnswer(p: Progress) returns (pick: Option<TicketId>)
    ensures GoodTail(p, pick)
  {
    pick := None;
    if p.dispatch.Some? { pick := GoodPickExists(p.tables, p.dispatch.value); }
  }

  lemma DeskAnswer(s: State, listed: set<Key>, q: Request, preferred: Option<DeskId>) returns (d: DeskId)
    ensures SlotFree(s, listed, q) ==> GoodDesk(s, listed, q, preferred, d)
  {
    ReserveIffFree(s, listed, q, preferred);
    d := 0;
    if SlotFree(s, listed, q) { d :| GoodDesk(s, listed, q, preferred, d); }
  }

  lemma QueueAnswer(s: State, q: DispatchStep, now: Instant) returns (r: DispatchStep)
    requires Safe(s) && !q.CallsExpire? && !q.SweepsMissed? && !q.Purges?
    requires q.Turns? ==> q.turned in {Available, Paused, Offline}
    ensures SameRequest(OnQueue(q), OnQueue(r)) && QueueLegal(s, r, now)
  {
    r := q;
    match q
    case ChecksIn(t, _) =>
      if t in s.tickets {
        var m := SetTicket(s, t, s.tickets[t].(status := CheckedIn, priority := 1, checkedInAt := Some(now)));
        var order := Listing(set e | e in m.employees && m.employees[e].status == Available);
        r := ChecksIn(t, order);
      }
    case ManagerSets(user, t, status, _) =>
      if ManagerChange(s, user, t, status, now).Ok? {
        var pick := TailAnswer(ManagerChange(s, user, t, status, now).value);
        r := ManagerSets(user, t, status, pick);
      }
    case Turns(user, status, _) =>
      if ChangeEmployeeStatus(s, user, status, now).Ok? {
        var pick := TailAnswer(ChangeEmployeeStatus(s, user, status, now).value);
        r := Turns(user, status, pick);
      }
    case Dispatches(e, _) =>
      var pick := GoodPickExists(s, e);
      r := Dispatches(e, if e in s.employees && s.employees[e].status == Available then pick else None);
    case _ =>
  }

  lemma BookAnswer(s: State, r: Store, b: BookStep, now: Instant) returns (c: BookStep)
    ensures SameRequest(AtDesk(b), AtDesk(c)) && BookLegal(s, r, c, now)
  {
    c := b;
    match b
    case Creates(f, session, id, _) =>
      var after := AfterConsume(r, session, id, f.start, now);
      if after.Some? {
        var d := DeskAnswer(s, Listed(after.value.1, now), RequestOf(f), Some(after.value.0.desk));
        c := Creates(f, session, id, d);
      }
    case WalksIn(f, _) =>
      var d := DeskAnswer(s, Listed(r, now), RequestOf(f), None);
      c := WalksIn(f, d);
    case Moves(t, start, _) =>
      if t in s.tickets && s.tickets[t].country.Some? {
        var d := DeskAnswer(s, Listed(r, now), MoveRequest(s, t, start), None);
        c := Moves(t, start, d);
      }
  }

  /** Redis answers TTL in whole seconds. */
  lemma HoldAnswer(r: Store, h: HoldStep, now: Instant) returns (g: HoldStep)
    ensures SameRequest(OnHolds(h), OnHolds(g)) && HoldLegal(r, g, now)
  {
    g := h;
    if h.Holds? && h.k in r.holds {
      g := HoldStep.Holds(h.session, h.k, h.id, (r.holds[h.k].deadline - now) / 1000);
    }
  }

  /** In every reachable state every request is a legal step, with some answer of the database. */
  lemma EveryRequestIsAStep(y: System, run: seq<Occurrence>, e: Event, now: Instant) returns (f: Event)
    requires Good(y) && LegalRun(y, run) && Asked(Run(y, run), e) && Run(y, run).clock <= now
    ensures SameRequest(e, f) && Safe(Run(y, run).db) && Legal(Run(y, run), Happens(now, f))
  {
    RunSafe(y, run);
    var z := Run(y, run);
    match e
    case OnQueue(q) =>
      var r := QueueAnswer(z.db, q, now);
      f := OnQueue(r);
    case InOffice(step) =>
      f := e;
      if step.Ensures? {
        var first := if z.db.place.sites == {} then None else var site :| site in z.db.place.sites; Some(site);
        f := InOffice(Ensures(step.e, step.role, first));
      }
    case OnHolds(h) =>
      var g := HoldAnswer(z.redis, h, now);
      f := OnHolds(g);
    case AtDesk(b) =>
      var c := BookAnswer(z.db, z.redis, b, now);
      f := AtDesk(c);
  }
}
