/** Who sits where, and what is given back for it, after a seating and a change of direction. */
module SeatLaws {
  import opened Domain
  import opened Tables
  import opened Dispatch
  import opened DispatchLaws

  // ----- giving back twice is giving back once -----

  lemma GivesBackBoth(s: State, m: State, s': State, who: set<EmployeeId>, more: set<EmployeeId>, now: Instant)
    requires GivesBack(s, m, who, now) && GivesBack(m, s', more, now)
    ensures GivesBack(s, s', who + more, now)
  {
    forall a | a in s.assignments ensures s'.assignments[a] == GivenBack(s.assignments[a], who + more, now) {
      assert m.assignments[a] == GivenBack(s.assignments[a], who, now);
    }
    forall t | t in s.tickets ensures TakenFrom(s, t, who + more) <==> TakenFrom(s, t, who) || TakenFrom(m, t, more) {
      TakenFromBoth(s, m, t, who, more, now);
    }
  }

  lemma TakenFromBoth(s: State, m: State, t: TicketId, who: set<EmployeeId>, more: set<EmployeeId>, now: Instant)
    requires GivesBack(s, m, who, now)
    ensures TakenFrom(s, t, who + more) <==> TakenFrom(s, t, who) || TakenFrom(m, t, more)
  {
    if a: AssignmentId :| Takes(s, a, t, who + more) {
      assert m.assignments[a] == GivenBack(s.assignments[a], who, now);
      assert Takes(s, a, t, who) || Takes(m, a, t, more);
    }
    if a: AssignmentId :| Takes(s, a, t, who) { assert Takes(s, a, t, who + more); }
    if a: AssignmentId :| Takes(m, a, t, more) {
      assert m.assignments[a] == GivenBack(s.assignments[a], who, now);
      assert Takes(s, a, t, who + more);
    }
  }

  // Whoever gives nothing back still does what it did.
  lemma WorksAsBefore(s: State, m: State, who: set<EmployeeId>, e: EmployeeId, now: Instant)
    requires References(s) && Exclusive(s) && GivesBack(s, m, who, now) && e !in who
    ensures HasWork(m, e) <==> HasWork(s, e)
    ensures ServesSomebody(m, e) <==> ServesSomebody(s, e)
  {
    assert forall a: AssignmentId :: WorksOn(m, a, e) <==> WorksOn(s, a, e);
    forall a: AssignmentId | WorksOn(s, a, e)
      ensures m.assignments[a] == s.assignments[a]
      ensures m.tickets[s.assignments[a].ticket] == s.tickets[s.assignments[a].ticket]
    {
      assert IsActive(s, a);
      assert !TakenFrom(s, s.assignments[a].ticket, who) by {
        if b: AssignmentId :| Takes(s, b, s.assignments[a].ticket, who) { assert IsActive(s, b); }
      }
    }
  }

  // ----- seating -----

  ghost predicate DeskSuits(s: State, e: EmployeeId, d: DeskId) {
    && e in s.employees && d in s.place.desks && s.place.desks[d].active
    && (s.employees[e].country.None? || s.employees[e].country == Some(s.place.desks[d].country))
  }

  /** The employee's row at its new desk. */
  function SeatedRow(row: Employee, d: DeskId, desk: Desk, hadWork: bool): Employee {
    row.(desk := Some(d), country := Some(desk.country), site := if row.site.None? then Some(desk.site) else row.site,
         status := if hadWork then Paused else row.status)
  }

  /** One employee is seated, those at the desk lose it, and all of them give their tickets back. */
  ghost predicate Seats(s: State, s': State, e: EmployeeId, d: DeskId, now: Instant)
    requires d in s.place.desks
  {
    && GivesBack(s, s', Displaced(s, d, e) + {e}, now)
    && s'.employees == map f | f in s.employees ::
         if f == e then SeatedRow(s.employees[e], d, s.place.desks[d], HasWork(s, e))
         else if f in Displaced(s, d, e) then Unseated(s.employees[f], HasWork(s, f))
         else s.employees[f]
  }

  lemma SeatsWhen(s: State, e: EmployeeId, d: DeskId, now: Instant)
    requires Safe(s)
    ensures SetDesk(s, e, Some(d), now).Ok? <==>
              && DeskSuits(s, e, d) && !ServesSomebody(s, e)
              && forall f | f in Displaced(s, d, e) :: !ServesSomebody(s, f)
    ensures SetDesk(s, e, Some(d), now).Err? ==>
              SetDesk(s, e, Some(d), now).error ==
              if e !in s.employees || d !in s.place.desks || !s.place.desks[d].active then NotFound
              else if !DeskSuits(s, e, d) then BadRequest
              else Conflict
    ensures SetDesk(s, e, Some(d), now).Ok? ==> Seats(s, SetDesk(s, e, Some(d), now).value, e, d, now)
  {
    if DeskSuits(s, e, d) {
      VacatesSo(s, d, e, now);
      if Vacate(s, d, e, now).Ok? {
        var m := Vacate(s, d, e, now).value;
        VacateKeeps(s, d, e, now);
        WorksAsBefore(s, m, Displaced(s, d, e), e, now);
        SitsSo(s, m, e, d, now);
      }
    }
  }

  lemma SitsRows(s: State, m: State, e: EmployeeId, d: DeskId, now: Instant)
    requires References(m) && Exclusive(m) && e in s.employees && d in s.place.desks
    requires m.employees == map f | f in s.employees ::
               if f in Displaced(s, d, e) then Unseated(s.employees[f], HasWork(s, f)) else s.employees[f]
    requires (HasWork(m, e) <==> HasWork(s, e)) && Sit(m, e, d, s.place.desks[d], now).Ok?
    ensures Sit(m, e, d, s.place.desks[d], now).value.employees == map f | f in s.employees ::
              if f == e then SeatedRow(s.employees[e], d, s.place.desks[d], HasWork(s, e))
              else if f in Displaced(s, d, e) then Unseated(s.employees[f], HasWork(s, f))
              else s.employees[f]
  {
    assert Release(m, e, Paused, now).Ok?;
    ReleasesSo(m, e, Paused, now);
  }

  lemma SitsSo(s: State, m: State, e: EmployeeId, d: DeskId, now: Instant)
    requires Safe(m) && e in s.employees && d in s.place.desks && GivesBack(s, m, Displaced(s, d, e), now)
    requires m.employees == map f | f in s.employees ::
               if f in Displaced(s, d, e) then Unseated(s.employees[f], HasWork(s, f)) else s.employees[f]
    requires (HasWork(m, e) <==> HasWork(s, e)) && (ServesSomebody(m, e) <==> ServesSomebody(s, e))
    ensures Sit(m, e, d, s.place.desks[d], now).Ok? <==> !ServesSomebody(s, e)
    ensures Sit(m, e, d, s.place.desks[d], now).Err? ==> Sit(m, e, d, s.place.desks[d], now).error == Conflict
    ensures Sit(m, e, d, s.place.desks[d], now).Ok? ==> Seats(s, Sit(m, e, d, s.place.desks[d], now).value, e, d, now)
  {
    ReleasesWhen(m, e, Paused, now);
    if !ServesSomebody(s, e) {
      var s' := Sit(m, e, d, s.place.desks[d], now).value;
      assert GivesBack(m, s', {e}, now) by { ReleasesSo(m, e, Paused, now); }
      GivesBackBoth(s, m, s', Displaced(s, d, e), {e}, now);
      SitsRows(s, m, e, d, now);
    }
  }

  /** Leaving a desk for none. */
  lemma LeavesDesk(s: State, e: EmployeeId, now: Instant)
    requires Safe(s)
    ensures SetDesk(s, e, None, now).Ok? <==> e in s.employees && !ServesSomebody(s, e)
    ensures SetDesk(s, e, None, now).Err? ==>
              SetDesk(s, e, None, now).error == if e in s.employees then Conflict else NotFound
    ensures SetDesk(s, e, None, now).Ok? ==>
              var s' := SetDesk(s, e, None, now).value;
              && GivesBack(s, s', {e}, now)
              && s'.employees == s.employees[e := Unseated(s.employees[e], HasWork(s, e))]
  {
    if e in s.employees { UnseatsSo(s, e, now); }
  }

  // ----- directions -----

  /** The employee sits at a desk of another country. */
  predicate SitsAbroad(s: State, e: EmployeeId, country: Country) {
    && e in s.employees && s.employees[e].desk.Some? && s.employees[e].desk.value in s.place.desks
    && s.place.desks[s.employees[e].desk.value].country != country
  }

  /** Whoever leaves a desk for another direction gives its ticket back and goes offline; others just change theirs. */
  lemma RedirectsSo(s: State, e: EmployeeId, country: Country, now: Instant)
    requires Safe(s)
    ensures SetCountry(s, e, country, now).Ok? <==>
              && e in s.employees && s.employees[e].role != Admin
              && (s.employees[e].country == Some(country) || !SitsAbroad(s, e, country) || !ServesSomebody(s, e))
    ensures SetCountry(s, e, country, now).Err? ==>
              SetCountry(s, e, country, now).error ==
              if e !in s.employees then NotFound else if s.employees[e].role == Admin then BadRequest else Conflict
    ensures SetCountry(s, e, country, now).Ok? ==>
              var s', row := SetCountry(s, e, country, now).value, s.employees[e];
              if row.country == Some(country) then s' == s
              else if !SitsAbroad(s, e, country) then
                s' == s.(employees := s.employees[e := row.(country := Some(country))])
              else
                && GivesBack(s, s', {e}, now)
                && s'.employees == s.employees[e := row.(desk := None, country := Some(country),
                                                         status := if HasWork(s, e) then Offline else row.status)]
  {
    if SitsAbroad(s, e, country) {
      ReleasesWhen(s, e, Offline, now);
      if !ServesSomebody(s, e) { ReleasesSo(s, e, Offline, now); }
    }
  }
}
