/** The tables as the services hold them. */
module Storage {
  import opened Domain
  import opened Tables

  class Database {
    var tickets: map<TicketId, Ticket>
    var employees: map<EmployeeId, Employee>
    var assignments: map<AssignmentId, Assignment>
    var place: Premises
    var nextTicket: nat
    var nextAssignment: nat

    function View(): State
      reads this
    {
      State(tickets, employees, assignments, place, nextTicket, nextAssignment)
    }

    /** A transaction that throws is rolled back. */
    method Restore(s: State)
      modifies this
      ensures View() == s
    {
      tickets, employees, assignments := s.tickets, s.employees, s.assignments;
      place, nextTicket, nextAssignment := s.place, s.nextTicket, s.nextAssignment;
    }

    /** find one active assignment of the employee. */
    method ActiveOfEmployee(e: EmployeeId) returns (r: Option<AssignmentId>)
      requires Exclusive(View())
      ensures r == AssignmentOf(View(), e)
    {
      if a :| a in assignments && ActiveRow(assignments[a]) && assignments[a].employee == e {
        assert ActiveBy(View(), a, e);
        return Some(a);
      }
      assert forall a :: ActiveBy(View(), a, e) ==> a in assignments && ActiveRow(assignments[a]);
      return None;
    }

    /** find one active assignment of the ticket. */
    method ActiveOfTicket(t: TicketId) returns (r: Option<AssignmentId>)
      requires Exclusive(View())
      ensures r == AssignmentFor(View(), t)
    {
      if a :| a in assignments && ActiveRow(assignments[a]) && assignments[a].ticket == t {
        assert ActiveFor(View(), a, t);
        return Some(a);
      }
      assert forall a :: ActiveFor(View(), a, t) ==> a in assignments && ActiveRow(assignments[a]);
      return None;
    }

    /** find one active assignment at the desk. */
    method ActiveAtDesk(d: DeskId) returns (r: Option<AssignmentId>)
      ensures r.Some? <==> DeskBusy(View(), d)
      ensures r.Some? ==> IsActive(View(), r.value) && View().assignments[r.value].desk == Some(d)
    {
      if a :| a in assignments && ActiveRow(assignments[a]) && assignments[a].desk == Some(d) {
        assert IsActive(View(), a);
        return Some(a);
      }
      assert forall a :: IsActive(View(), a) ==> a in assignments && ActiveRow(assignments[a]);
      return None;
    }

    predicate ActiveRow(row: Assignment) {
      row.active
    }
  }
}
