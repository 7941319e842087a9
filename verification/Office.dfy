/** What administrators change: employees' rows, desks and blocked time. */
module Office {
  import opened Domain
  import opened Tables
  import opened Booking

  ghost predicate DesksIssued(s: State) {
    forall d | d in s.place.desks :: d < s.place.nextDesk
  }

  /** An answer to the query for the first active site. */
  predicate GoodSite(s: State, site: Option<SiteId>) {
    if s.place.sites == {} then site == None else site.Some? && site.value in s.place.sites
  }

  /** ensureEmployee: a first visit creates the row, a missing site is filled in. */
  function EnsureEmployee(s: State, e: EmployeeId, role: Role, site: Option<SiteId>): Result<State> {
    if e in s.employees then
      if s.employees[e].site.Some? || site.None? then Ok(s)
      else Ok(SetEmployee(s, e, s.employees[e].(site := site)))
    else if site.None? then Err(NotFound)
    else Ok(SetEmployee(s, e, Employee(role, Offline, site, None, None, [])))
  }

  lemma EnsureEmployeeKeeps(s: State, e: EmployeeId, role: Role, site: Option<SiteId>)
    requires Safe(s) && EnsureEmployee(s, e, role, site).Ok?
    ensures Steps(s, EnsureEmployee(s, e, role, site).value)
  {
    var s' := EnsureEmployee(s, e, role, site).value;
    if e !in s.employees {
      assert Idle(s, e);
    }
    if s' != s {
      SetEmployeeKeeps(s, e, s'.employees[e]);
    }
  }

  function CreateDesk(s: State, rank: nat, site: SiteId, country: Country): Result<State> {
    if site !in s.place.sites then Err(NotFound)
    else Ok(s.(place := s.place.(desks := s.place.desks[s.place.nextDesk := Desk(rank, country, true, site)],
                                 nextDesk := s.place.nextDesk + 1)))
  }

  datatype DeskPatch = DeskPatch(rank: Option<nat>, active: Option<bool>, country: Option<Country>)

  function Patched(desk: Desk, patch: DeskPatch): Desk {
    Desk(if patch.rank.Some? then patch.rank.value else desk.rank,
         if patch.country.Some? then patch.country.value else desk.country,
         if patch.active.Some? then patch.active.value else desk.active,
         desk.site)
  }

  function UpdateDesk(s: State, d: DeskId, patch: DeskPatch): Result<State> {
    if d !in s.place.desks then Err(NotFound)
    else Ok(s.(place := s.place.(desks := s.place.desks[d := Patched(s.place.desks[d], patch)])))
  }

  function WithoutDesk(e: Employee, d: DeskId): Employee {
    if e.desk == Some(d) then e.(desk := None) else e
  }

  predicate HasHistory(s: State, d: DeskId) {
    exists a | a in s.assignments :: s.assignments[a].desk == Some(d)
  }

  predicate DeskBooked(s: State, d: DeskId) {
    exists t | t in s.tickets :: s.tickets[t].reservedDesk == Some(d)
  }

  /**
   * deleteDesk: refused while an occupant is reserved or busy with an assignment. The occupants lose the seat; a desk
   * with a history is only switched off, and a row that tickets refer to cannot be deleted.
   */
  ghost function DeleteDesk(s: State, d: DeskId): Result<State> {
    if d !in s.place.desks then Err(NotFound)
    else if exists e :: e in s.employees && s.employees[e].desk == Some(d)
                        && !Idle(s, e) && Engaged(s.employees[e].status) then Err(Conflict)
    else
      var m := s.(employees := map e | e in s.employees :: WithoutDesk(s.employees[e], d));
      if HasHistory(s, d) then
        Ok(m.(place := s.place.(desks := s.place.desks[d := s.place.desks[d].(active := false)])))
      else if DeskBooked(s, d) then Err(DatabaseError)
      else Ok(m.(place := s.place.(desks := s.place.desks - {d})))
  }

  lemma PlaceIrrelevant(s: State, place: Premises)
    requires Safe(s)
    ensures var s' := s.(place := place); Safe(s') && Evolves(s, s') && (DesksAgree(s) ==> DesksAgree(s'))
  {
    var s' := s.(place := place);
    assert forall a :: IsActive(s', a) == IsActive(s, a);
    assert forall a, u :: ActiveFor(s', a, u) == ActiveFor(s, a, u);
    assert forall a, u :: ServedBy(s', a, u) == ServedBy(s, a, u);
    assert forall a, e :: ActiveBy(s', a, e) == ActiveBy(s, a, e);
  }

  lemma UnseatAllEvolves(s: State, d: DeskId)
    requires References(s)
    ensures Evolves(s, s.(employees := map e | e in s.employees :: WithoutDesk(s.employees[e], d)))
  {
  }

  lemma UnseatAllTickets(s: State, d: DeskId)
    requires TicketsFit(s)
    ensures TicketsFit(s.(employees := map e | e in s.employees :: WithoutDesk(s.employees[e], d)))
  {
    var s' := s.(employees := map e | e in s.employees :: WithoutDesk(s.employees[e], d));
    assert forall a, u :: ActiveFor(s', a, u) == ActiveFor(s, a, u);
    assert forall a, u :: ServedBy(s', a, u) == ServedBy(s, a, u);
  }

  lemma UnseatAllKeeps(s: State, d: DeskId)
    requires Safe(s)
    ensures var s' := s.(employees := map e | e in s.employees :: WithoutDesk(s.employees[e], d));
            Safe(s') && Evolves(s, s')
  {
    var s' := s.(employees := map e | e in s.employees :: WithoutDesk(s.employees[e], d));
    assert forall a :: IsActive(s', a) == IsActive(s, a);
    UnseatAllTickets(s, d);
    assert EmployeesFit(s') by { assert forall a, e :: ActiveBy(s', a, e) == ActiveBy(s, a, e); }
    UnseatAllEvolves(s, d);
  }

  lemma DeleteDeskKeeps(s: State, d: DeskId)
    requires Safe(s) && DeleteDesk(s, d).Ok?
    ensures Safe(DeleteDesk(s, d).value) && Evolves(s, DeleteDesk(s, d).value)
  {
    var m := s.(employees := map e | e in s.employees :: WithoutDesk(s.employees[e], d));
    var s' := DeleteDesk(s, d).value;
    assert Safe(m) && Evolves(s, m) by { UnseatAllKeeps(s, d); }
    assert s' == m.(place := s'.place);
    PlaceIrrelevant(m, s'.place);
  }

  // ----- bookings -----

  ghost predicate BookedDesksStay(s: State, s': State) {
    forall d | d in s.place.desks && DeskBooked(s, d) ::
      d in s'.place.desks && s'.place.desks[d].site == s.place.desks[d].site
  }

  ghost predicate BookedDesksKeepCountry(s: State, s': State) {
    forall d | d in s.place.desks && d in s'.place.desks && DeskBooked(s, d) ::
      s'.place.desks[d].country == s.place.desks[d].country
  }

  /**
   * Of the desks, bookings need only that they stay where they are, and for the right country that they keep theirs.
   */
  lemma DesksKeepPlaced(s: State, s': State)
    requires AllPlaced(s) && s'.tickets == s.tickets && BookedDesksStay(s, s')
    ensures AllPlaced(s')
    ensures AllFitting(s) && BookedDesksKeepCountry(s, s') ==> AllFitting(s')
  {
    forall t | t in s'.tickets
      ensures Placed(s'.place, s'.tickets[t])
      ensures Fitting(s.place, s.tickets[t]) && BookedDesksKeepCountry(s, s') ==> Fitting(s'.place, s'.tickets[t])
    {
      assert Placed(s.place, s.tickets[t]) && DeskBooked(s, s.tickets[t].reservedDesk.value);
    }
    if AllFitting(s) && BookedDesksKeepCountry(s, s') {
      forall t | IsOpen(s', t) ensures Fitting(s'.place, s'.tickets[t]) { assert IsOpen(s, t); }
    }
  }

  ghost predicate SlotReserved(s: State, d: DeskId) {
    exists t :: IsOpen(s, t) && s.tickets[t].reservedDesk == Some(d)
  }

  /**
   * Every open ticket stays one for its desk's country exactly when the country stays or no open ticket is for the
   * desk.
   */
  lemma UpdateDeskFitting(s: State, d: DeskId, patch: DeskPatch)
    requires AllFitting(s) && UpdateDesk(s, d, patch).Ok?
    ensures AllFitting(UpdateDesk(s, d, patch).value)
            <==> Patched(s.place.desks[d], patch).country == s.place.desks[d].country || !SlotReserved(s, d)
  {
    var s' := UpdateDesk(s, d, patch).value;
    assert forall t :: IsOpen(s', t) <==> IsOpen(s, t);
    if Patched(s.place.desks[d], patch).country == s.place.desks[d].country || !SlotReserved(s, d) {
      forall t | IsOpen(s', t) ensures Fitting(s'.place, s'.tickets[t]) {
        assert Fitting(s.place, s.tickets[t]);
      }
    } else {
      var t :| IsOpen(s, t) && s.tickets[t].reservedDesk == Some(d);
      assert Fitting(s.place, s.tickets[t]) && !Fitting(s'.place, s'.tickets[t]);
    }
  }
}
