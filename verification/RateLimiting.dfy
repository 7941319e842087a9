/** The service that keeps holds and quotas in Redis, command by command. */
module RateLimiting {
  import opened Domain
  import opened Calendar
  import opened Holds
  import Q = Quota

  /** The desks held for a time that overlaps, every hold measured with the same length. */
  ghost predicate HeldDuring(keys: set<Key>, start: Instant, end: Instant, minutes: nat, d: DeskId) {
    exists k :: k in keys && k.desk == d && Overlap(start, end, k.time, End(k.time, minutes))
  }

  /** What the commands before the index leave of a store whose key is taken. */
  predicate KeyTaken(r: Store, m: Store, session: SessionId, k: Key, holdId: HoldId, now: Instant) {
    var other := LivePointer(r, session, now) && r.pointers[session].key != k;
    && m.holds == (if other then r.holds[k := Hold(session, holdId, now + HOLD_TTL, now)] - {r.pointers[session].key}
                   else r.holds[k := Hold(session, holdId, now + HOLD_TTL, now)])
    && m.index == (if other then r.index - {r.pointers[session].key} else r.index)
    && m.pointers == r.pointers[session := Pointer(k, now + HOLD_TTL)]
    && m.refreshed == r.refreshed && m.indexDeadline == r.indexDeadline
  }

  /** Taking the key before giving up the earlier one comes to the same as giving that up first. */
  lemma TakesFreeKey(r: Store, m: Store, session: SessionId, k: Key, holdId: HoldId, ttl: int, now: Instant)
    requires !LiveHold(r, k, now) && KeyTaken(r, m, session, k, holdId, now)
    ensures Holds.HoldSlot(r, session, k, holdId, ttl, now) == (AddToIndex(m, k, now + HOLD_TTL, now), true)
  {
    var f := Forget(r, session, now);
    assert m.index[k := now + HOLD_TTL] == f.index[k := now + HOLD_TTL];
    assert m.holds == f.holds[k := Hold(session, holdId, now + HOLD_TTL, now)];
    assert m.pointers == f.pointers[session := Pointer(k, now + HOLD_TTL)];
  }

  class RateLimitService {
    // slot:hold:*, slot:session:*, slot:refresh:* and the sorted set slot:holds
    var holds: map<Key, Hold>
    var pointers: map<SessionId, Pointer>
    var refreshed: map<SessionId, Instant>
    var index: map<Key, Instant>
    var indexDeadline: Instant
    // ticket:hour:*
    var counters: map<string, Q.Counter>

    ghost function View(): Store
      reads this
    {
      Store(holds, pointers, refreshed, index, indexDeadline)
    }

    /** ZADD and EXPIRE on the sorted set. */
    method AddToSlotHolds(k: Key, score: Instant, now: Instant)
      modifies this`index, this`indexDeadline
      ensures View() == AddToIndex(old(View()), k, score, now)
    {
      var members := if now < indexDeadline then index else map[];
      index := members[k := score];
      indexDeadline := now + INDEX_TTL;
    }

    method HoldSlot(session: SessionId, k: Key, holdId: HoldId, ttl: int, now: Instant) returns (taken: bool)
      modifies this`holds, this`pointers, this`index, this`indexDeadline
      ensures (View(), taken) == Holds.HoldSlot(old(View()), session, k, holdId, ttl, now)
    {
      if k in holds && now < holds[k].deadline {
        var owned := holds[k].session == session;
        if owned {
          AddToSlotHolds(k, now + (if ttl > 1 then ttl else 1) * 1000, now);
        }
        return owned;
      }
      holds := holds[k := Hold(session, holdId, now + HOLD_TTL, now)];
      if session in pointers && now < pointers[session].deadline && pointers[session].key != k {
        var previous := pointers[session].key;
        holds := holds - {previous};
        index := index - {previous};
      }
      pointers := pointers[session := Pointer(k, now + HOLD_TTL)];
      TakesFreeKey(old(View()), View(), session, k, holdId, ttl, now);
      AddToSlotHolds(k, now + HOLD_TTL, now);
      return true;
    }

    method PeekHold(session: SessionId, holdId: HoldId, now: Instant) returns (r: Option<Key>)
      ensures r == Holds.PeekHold(View(), session, holdId, now)
    {
      if session !in pointers || pointers[session].deadline <= now { return None; }
      var k := pointers[session].key;
      if k !in holds || holds[k].deadline <= now { return None; }
      if holds[k].session != session || holds[k].holdId != holdId { return None; }
      return Some(k);
    }

    method GetSessionHold(session: SessionId, now: Instant) returns (r: Option<(Key, HoldId)>)
      ensures SessionHold(View(), session, now) == (match r case None => None case Some(p) => Some(p.0))
      ensures r.Some? ==> LiveHold(View(), r.value.0, now) && holds[r.value.0].session == session
      ensures r.Some? ==> r.value.1 == holds[r.value.0].holdId
    {
      if session !in pointers || pointers[session].deadline <= now { return None; }
      var k := pointers[session].key;
      if k !in holds || holds[k].deadline <= now || holds[k].session != session { return None; }
      return Some((k, holds[k].holdId));
    }

    method RefreshHold(session: SessionId, holdId: HoldId, now: Instant) returns (done: bool)
      modifies this`holds, this`pointers, this`refreshed, this`index, this`indexDeadline
      ensures (View(), done) == Holds.RefreshHold(old(View()), session, holdId, now)
    {
      if session !in pointers || pointers[session].deadline <= now { return false; }
      var k := pointers[session].key;
      if k !in holds || holds[k].deadline <= now || holds[k].session != session || holds[k].holdId != holdId {
        return false;
      }
      if session in refreshed && now < refreshed[session] { return false; }
      holds := holds[k := holds[k].(deadline := now + HOLD_TTL)];
      pointers := pointers[session := pointers[session].(deadline := now + HOLD_TTL)];
      refreshed := refreshed[session := now + HOLD_TTL];
      AddToSlotHolds(k, now + HOLD_TTL, now);
      return true;
    }

    method ConsumeHold(session: SessionId, holdId: HoldId, k: Key, now: Instant) returns (done: bool)
      modifies this`holds, this`pointers, this`refreshed, this`index
      ensures (View(), done) == Holds.ConsumeHold(old(View()), session, holdId, k, now)
    {
      if k !in holds || holds[k].deadline <= now || holds[k].session != session || holds[k].holdId != holdId {
        return false;
      }
      holds := holds - {k};
      pointers := pointers - {session};
      refreshed := refreshed - {session};
      index := index - {k};
      return true;
    }

    method ListHolds(now: Instant) returns (keys: set<Key>)
      modifies this`index
      ensures View() == Prune(old(View()), now)
      ensures keys == Listed(old(View()), now) == Listed(View(), now)
    {
      var members := if now < indexDeadline then index else map[];
      index := map k | k in members && now < members[k] :: members[k];
      keys := set k | k in index;
      assert keys == Listed(old(View()), now);
    }

    /** The desks held for an overlapping time. */
    method HeldDeskIds(start: Instant, end: Instant, minutes: nat, now: Instant) returns (busy: set<DeskId>)
      modifies this`index
      ensures View() == Prune(old(View()), now)
      ensures forall d :: d in busy <==> HeldDuring(Listed(old(View()), now), start, end, minutes, d)
    {
      var keys := ListHolds(now);
      busy := {};
      var rest := keys;
      while rest != {}
        invariant rest <= keys
        invariant forall d :: d in busy <==> HeldDuring(keys - rest, start, end, minutes, d)
        decreases |rest|
      {
        var k :| k in rest;
        ghost var seen := keys - rest;
        assert keys - (rest - {k}) == seen + {k};
        if Overlap(start, end, k.time, End(k.time, minutes)) { busy := busy + {k.desk}; }
        rest := rest - {k};
        assert forall d :: HeldDuring(seen + {k}, start, end, minutes, d) <==>
                           (HeldDuring(seen, start, end, minutes, d)
                               || (k.desk == d && Overlap(start, end, k.time, End(k.time, minutes))));
      }
      assert keys - rest == keys;
    }

    /** One client's counter; a client never seen has none. */
    function CounterOf(client: string): Q.Counter
      reads this
    {
      if client in counters then counters[client] else Q.Counter(0, 0)
    }

    /** `cooldown` is what Redis answers to TTL on the client's cooldown key. */
    method AssertCanCreateTicket(client: string, cooldown: int, now: Instant) returns (r: Result<()>)
      requires 0 <= now
      modifies this`counters
      ensures CounterOf(client) == Q.Admit(old(CounterOf(client)), Q.Request(now, cooldown)).0
      ensures r.Ok? == Q.Admit(old(CounterOf(client)), Q.Request(now, cooldown)).1
      ensures r.Err? ==> r.error == TooManyRequests
      ensures forall other :: other != client ==> CounterOf(other) == old(CounterOf(other))
    {
      if cooldown > 0 { return Err(TooManyRequests); }
      var created := 1;
      var deadline := 0;
      if client in counters && now < counters[client].deadline {
        created := counters[client].count + 1;
        deadline := counters[client].deadline;
      }
      if created == 1 { deadline := now + Q.HOUR; }
      counters := counters[client := Q.Counter(created, deadline)];
      if created > Q.LIMIT { return Err(TooManyRequests); }
      return Ok(());
    }
  }
}
