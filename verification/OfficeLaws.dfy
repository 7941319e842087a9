/** What administrators' changes do, row by row. */
module OfficeLaws {
  import opened Domain
  import opened Tables
  import opened Office

  /** A first visit makes an employee without desk, country or services, offline; a later one only fills in the site. */
  lemma EnsuresSo(s: State, e: EmployeeId, role: Role, site: Option<SiteId>)
    ensures EnsureEmployee(s, e, role, site) ==
            if e !in s.employees && site.None? then Err(NotFound)
            else if e !in s.employees then
              Ok(s.(employees := s.employees[e := Employee(role, Offline, site, None, None, [])]))
            else if s.employees[e].site.None? then
              Ok(s.(employees := s.employees[e := s.employees[e].(site := site)]))
            else Ok(s)
  {
    if e in s.employees { assert s.employees == s.employees[e := s.employees[e]]; }
  }

  lemma CreatesDeskSo(s: State, rank: nat, site: SiteId, country: Country)
    ensures CreateDesk(s, rank, site, country).Ok? <==> site in s.place.sites
    ensures CreateDesk(s, rank, site, country).Err? ==> CreateDesk(s, rank, site, country).error == NotFound
    ensures CreateDesk(s, rank, site, country).Ok? ==>
              var s' := CreateDesk(s, rank, site, country).value;
              && s'.place.desks == s.place.desks[s.place.nextDesk := Desk(rank, country, true, site)]
              && s'.place.nextDesk == s.place.nextDesk + 1
              && s' == s.(place := s.place.(desks := s'.place.desks, nextDesk := s'.place.nextDesk))
  {
  }

  /** Only what the patch names changes, and never the site. */
  lemma UpdatesDeskSo(s: State, d: DeskId, patch: DeskPatch)
    ensures UpdateDesk(s, d, patch).Ok? <==> d in s.place.desks
    ensures UpdateDesk(s, d, patch).Err? ==> UpdateDesk(s, d, patch).error == NotFound
    ensures UpdateDesk(s, d, patch).Ok? ==>
              var s' := UpdateDesk(s, d, patch).value;
              var was, row := s.place.desks[d], s'.place.desks[d];
              && s' == s.(place := s.place.(desks := s.place.desks[d := row]))
              && row.site == was.site
              && row.rank == (match patch.rank case Some(rank) => rank case None => was.rank)
              && row.country == (match patch.country case Some(country) => country case None => was.country)
              && row.active == (match patch.active case Some(active) => active case None => was.active)
  {
  }

  predicate ServesAt(s: State, e: EmployeeId, d: DeskId) {
    && e in s.employees && s.employees[e].desk == Some(d)
    && (s.employees[e].status == Reserved || s.employees[e].status == Busy)
    && exists a | a in s.assignments :: s.assignments[a].active && s.assignments[a].employee == e
  }

  predicate WasWorkedAt(s: State, d: DeskId) {
    exists a | a in s.assignments :: s.assignments[a].desk == Some(d)
  }

  predicate WasBooked(s: State, d: DeskId) {
    exists t | t in s.tickets :: s.tickets[t].reservedDesk == Some(d)
  }

  lemma ServesAtExactly(s: State, e: EmployeeId, d: DeskId)
    ensures ServesAt(s, e, d) <==>
              e in s.employees && s.employees[e].desk == Some(d) && !Idle(s, e) && Engaged(s.employees[e].status)
  {
    if e in s.employees && s.employees[e].desk == Some(d) && Engaged(s.employees[e].status) {
      assert forall a: AssignmentId | a in s.assignments && s.assignments[a].active && s.assignments[a].employee == e ::
        ActiveBy(s, a, e);
    }
  }

  /**
   * A desk goes unless somebody reserved or busy works at it. Everybody at it loses the seat; one that was worked at is
   * only switched off, and one that tickets name but nobody ever worked at stays as it is.
   */
  lemma DeletesDeskSo(s: State, d: DeskId)
    ensures DeleteDesk(s, d).Err? <==>
              d !in s.place.desks || (exists e :: ServesAt(s, e, d)) || (WasBooked(s, d) && !WasWorkedAt(s, d))
    ensures DeleteDesk(s, d).Err? ==>
              DeleteDesk(s, d).error ==
              if d !in s.place.desks then NotFound
              else if exists e :: ServesAt(s, e, d) then Conflict
              else DatabaseError
    ensures DeleteDesk(s, d).Ok? ==>
              var s' := DeleteDesk(s, d).value;
              && s'.tickets == s.tickets && s'.assignments == s.assignments
              && s'.nextTicket == s.nextTicket && s'.nextAssignment == s.nextAssignment
              && s'.employees.Keys == s.employees.Keys
              && (forall e | e in s.employees ::
                    s'.employees[e] ==
                    if s.employees[e].desk == Some(d) then s.employees[e].(desk := None) else s.employees[e])
              && s'.place == s.place.(desks := if WasWorkedAt(s, d)
                                               then s.place.desks[d := s.place.desks[d].(active := false)]
                                               else s.place.desks - {d})
  {
    forall e ensures ServesAt(s, e, d) <==>
        e in s.employees && s.employees[e].desk == Some(d) && !Idle(s, e) && Engaged(s.employees[e].status)
    {
      ServesAtExactly(s, e, d);
    }
  }
}
