/** The place in line shown to a client, against the order in which tickets are really taken. */
module QueuePosition {
  import opened Domain
  import opened Dispatch
  import opened Sweeps

  /** The tickets that wait at the same site for the same country. */
  predicate Peer(s: State, t: TicketId, p: TicketId) {
    && t in s.tickets && p in s.tickets && Live(s.tickets[p].status)
    && s.tickets[p].site == s.tickets[t].site
    && s.tickets[p].country.Some? && s.tickets[p].country == s.tickets[t].country
  }

  function EffectiveTime(row: Ticket): Instant {
    if row.scheduledAt.Some? then row.scheduledAt.value else row.createdAt
  }

  predicate IsAhead(s: State, t: TicketId, p: TicketId) {
    && Peer(s, t, p)
    && (s.tickets[p].priority > s.tickets[t].priority
        || (s.tickets[p].priority == s.tickets[t].priority
            && EffectiveTime(s.tickets[p]) < EffectiveTime(s.tickets[t])))
  }

  function Ahead(s: State, t: TicketId): set<TicketId> {
    set p | p in s.tickets && IsAhead(s, t, p)
  }

  /** getQueueMeta's queuePosition. */
  function Position(s: State, t: TicketId): nat {
    if t in s.tickets && Live(s.tickets[t].status) then |Ahead(s, t)| + 1 else 0
  }

  /** Other peers with the same priority and slot: only their arrival decides. */
  function Tied(s: State, t: TicketId): set<TicketId> {
    set p | p in s.tickets && Peer(s, t, p) && p != t && s.tickets[p].priority == s.tickets[t].priority
            && s.tickets[p].scheduledAt == s.tickets[t].scheduledAt
  }

  /** `line` holds the ticket's peers in an order the dispatch query may give them. */
  ghost predicate Line(s: State, t: TicketId, line: seq<TicketId>) {
    && Distinct(line) && (forall i | 0 <= i < |line| :: Peer(s, t, line[i])) && (forall p | Peer(s, t, p) :: p in line)
    && (forall i, j | 0 <= i < j < |line| :: !Before(s.tickets[line[j]], s.tickets[line[i]]))
  }

  /** The place shown counts the waiting tickets of the site and country that are more urgent or due earlier. */
  lemma PositionCounts(s: State, t: TicketId, ahead: set<TicketId>)
    requires t in s.tickets && s.tickets[t].country.Some?
    requires forall p :: p in ahead <==>
      && p in s.tickets && (s.tickets[p].status == CheckedIn || s.tickets[p].status == Requeued)
      && s.tickets[p].site == s.tickets[t].site && s.tickets[p].country == s.tickets[t].country
      && var x, y := s.tickets[p], s.tickets[t];
         || x.priority > y.priority
         || (x.priority == y.priority
             && (if x.scheduledAt.Some? then x.scheduledAt.value else x.createdAt)
                < (if y.scheduledAt.Some? then y.scheduledAt.value else y.createdAt))
    ensures Position(s, t) ==
            if s.tickets[t].status == CheckedIn || s.tickets[t].status == Requeued then |ahead| + 1 else 0
  {
    assert ahead == Ahead(s, t);
  }

  /** As every ticket has in every reachable state. */
  ghost predicate SlottedPeers(s: State, t: TicketId) {
    forall p | Peer(s, t, p) :: s.tickets[p].scheduledAt.Some?
  }

  lemma SmallerSet(x: set<nat>, y: set<nat>)
    requires x <= y
    ensures |x| <= |y|
  {
    assert y == x + (y - x);
  }

  lemma AheadComeFirst(s: State, t: TicketId, line: seq<TicketId>, rank: nat)
    requires SlottedPeers(s, t) && Line(s, t, line) && rank < |line| && line[rank] == t
    ensures Ahead(s, t) <= Ids(line[..rank])
  {
    forall p | p in Ahead(s, t) ensures p in Ids(line[..rank]) {
      var j :| 0 <= j < |line| && line[j] == p;
      assert Peer(s, t, p) && Peer(s, t, t);
      assert Before(s.tickets[p], s.tickets[t]);
    }
  }

  lemma FirstAreAhead(s: State, t: TicketId, line: seq<TicketId>, rank: nat)
    requires SlottedPeers(s, t) && Line(s, t, line) && rank < |line| && line[rank] == t
    ensures Ids(line[..rank]) <= Ahead(s, t) + Tied(s, t)
  {
    forall p | p in Ids(line[..rank]) ensures p in Ahead(s, t) + Tied(s, t) {
      var i :| 0 <= i < rank && line[i] == p;
      assert Peer(s, t, p) && Peer(s, t, t);
      assert !Before(s.tickets[t], s.tickets[p]);
    }
  }

  /**
   * While every peer has a slot the position is the ticket's place in line, up to peers with the same priority and
   * slot.
   */
  lemma PositionIsRank(s: State, t: TicketId, line: seq<TicketId>, rank: nat)
    requires SlottedPeers(s, t) && Line(s, t, line) && rank < |line| && line[rank] == t
    ensures Position(s, t) - 1 <= rank <= Position(s, t) - 1 + |Tied(s, t)|
  {
    assert t in line && Peer(s, t, t);
    var first := line[..rank];
    IdsCount(first);
    AheadComeFirst(s, t, line, rank);
    FirstAreAhead(s, t, line, rank);
    SmallerSet(Ahead(s, t), Ids(first));
    SmallerSet(Ids(first), Ahead(s, t) + Tied(s, t));
  }
}
