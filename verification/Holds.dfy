/**
 * The slot holds kept in Redis: keys with a deadline, one pointer a session, a once-only refresh flag and
 * the sorted set that indexes the holds. An entry whose deadline has come is dead; dead entries stay in the
 * maps and are never read. Instants are milliseconds, and a method takes one instant for all its commands.
 */
module Holds {
  import opened Domain

  type SessionId = string
  type HoldId = string

  // The hold key of a desk and a start time; HoldCodec.dfy relates it to its text.
  datatype Key = Key(desk: DeskId, time: Instant)

  // `born` remembers when the key was created; no command reads it.
  datatype Hold = Hold(session: SessionId, holdId: HoldId, deadline: Instant, born: Instant)

  datatype Pointer = Pointer(key: Key, deadline: Instant)

  datatype Store = Store(
    holds: map<Key, Hold>,
    pointers: map<SessionId, Pointer>,
    refreshed: map<SessionId, Instant>,
    index: map<Key, Instant>,
    indexDeadline: Instant)

  const HOLD_TTL := 180_000
  const INDEX_TTL := 86_400_000

  const EMPTY_STORE := Store(map[], map[], map[], map[], 0)

  predicate LiveHold(r: Store, k: Key, now: Instant) {
    k in r.holds && now < r.holds[k].deadline
  }

  predicate LivePointer(r: Store, s: SessionId, now: Instant) {
    s in r.pointers && now < r.pointers[s].deadline
  }

  predicate Refreshed(r: Store, s: SessionId, now: Instant) {
    s in r.refreshed && now < r.refreshed[s]
  }

  /** The members of the sorted set, which is itself a key with a deadline. */
  function Index(r: Store, now: Instant): map<Key, Instant> {
    if now < r.indexDeadline then r.index else map[]
  }

  /** The answer of listHolds: the members whose score has not come. */
  function Listed(r: Store, now: Instant): set<Key> {
    set k | k in Index(r, now) && now < Index(r, now)[k]
  }

  /** listHolds drops the members whose score has come. */
  function Prune(r: Store, now: Instant): Store {
    r.(index := map k | k in Index(r, now) && now < Index(r, now)[k] :: Index(r, now)[k])
  }

  lemma PruneAgain(r: Store, now: Instant)
    ensures Listed(Prune(r, now), now) == Listed(r, now) && Prune(Prune(r, now), now) == Prune(r, now)
  {
  }

  // ----- the commands -----

  function AddToIndex(r: Store, k: Key, score: Instant, now: Instant): Store {
    r.(index := Index(r, now)[k := score], indexDeadline := now + INDEX_TTL)
  }

  /** A key is written: the session's pointer and the index follow it. */
  function Write(r: Store, k: Key, h: Hold, now: Instant): Store {
    var m := r.(holds := r.holds[k := h], pointers := r.pointers[h.session := Pointer(k, h.deadline)]);
    AddToIndex(m, k, h.deadline, now)
  }

  /** The session's hold is given up. */
  function Forget(r: Store, s: SessionId, now: Instant): Store {
    if LivePointer(r, s, now) then
      var k := r.pointers[s].key;
      r.(holds := r.holds - {k}, pointers := r.pointers - {s}, index := r.index - {k})
    else r
  }

  /**
   * Take the key if nobody has it, giving up the session's earlier hold. `ttl` is what Redis answers to TTL on the key.
   */
  function HoldSlot(r: Store, s: SessionId, k: Key, id: HoldId, ttl: int, now: Instant): (Store, bool) {
    if LiveHold(r, k, now) then
      if r.holds[k].session == s
      then (AddToIndex(r, k, now + (if ttl > 1 then ttl else 1) * 1000, now), true)
      else (r, false)
    else (Write(Forget(r, s, now), k, Hold(s, id, now + HOLD_TTL, now), now), true)
  }

  /** The hold the session points at, if it is this one. */
  function PeekHold(r: Store, s: SessionId, id: HoldId, now: Instant): Option<Key> {
    if LivePointer(r, s, now) && LiveHold(r, r.pointers[s].key, now)
       && r.holds[r.pointers[s].key].session == s && r.holds[r.pointers[s].key].holdId == id
    then Some(r.pointers[s].key) else None
  }

  function SessionHold(r: Store, s: SessionId, now: Instant): Option<Key> {
    if LivePointer(r, s, now) && LiveHold(r, r.pointers[s].key, now) && r.holds[r.pointers[s].key].session == s
    then Some(r.pointers[s].key) else None
  }

  function RefreshHold(r: Store, s: SessionId, id: HoldId, now: Instant): (Store, bool) {
    match PeekHold(r, s, id, now)
    case None => (r, false)
    case Some(k) =>
      if Refreshed(r, s, now) then (r, false)
      else
        var m := r.(refreshed := r.refreshed[s := now + HOLD_TTL]);
        (Write(m, k, r.holds[k].(deadline := now + HOLD_TTL), now), true)
  }

  function ConsumeHold(r: Store, s: SessionId, id: HoldId, k: Key, now: Instant): (Store, bool) {
    if LiveHold(r, k, now) && r.holds[k].session == s && r.holds[k].holdId == id then
      (r.(holds := r.holds - {k}, pointers := r.pointers - {s},
          refreshed := r.refreshed - {s}, index := r.index - {k}), true)
    else (r, false)
  }

  // ----- the invariant -----

  predicate Near(x: Instant, y: Instant) {
    -1000 < x - y < 1000
  }

  // A live key and its session's pointer name each other and die together.
  ghost predicate Paired(r: Store, now: Instant) {
    && (forall k | LiveHold(r, k, now) ::
          var s := r.holds[k].session; s in r.pointers && r.pointers[s] == Pointer(k, r.holds[k].deadline))
    && (forall s | LivePointer(r, s, now) ::
          var k := r.pointers[s].key;
          k in r.holds && r.holds[k].session == s && r.holds[k].deadline == r.pointers[s].deadline)
  }

  // Every live key with a second to live is indexed, and every member belongs to a key with about the same deadline.
  ghost predicate Indexed(r: Store, now: Instant) {
    && (forall k | LiveHold(r, k, now) :: r.holds[k].deadline <= r.indexDeadline)
    && (forall k | LiveHold(r, k, now) && now + 1000 <= r.holds[k].deadline :: k in r.index)
    && (forall k | k in Index(r, now) :: k in r.holds && Near(r.index[k], r.holds[k].deadline))
  }

  // A key lives 180 seconds, or less than 360 when refreshed, and then the flag lives as long as the key.
  ghost predicate Bounded(r: Store, now: Instant) {
    forall k | LiveHold(r, k, now) ::
      var h := r.holds[k];
      && h.born <= now && h.deadline <= now + HOLD_TTL
      && (h.deadline == h.born + HOLD_TTL
          || (h.deadline < h.born + 2 * HOLD_TTL && h.session in r.refreshed && r.refreshed[h.session] == h.deadline))
  }

  ghost predicate InSync(r: Store, now: Instant) {
    Paired(r, now) && Indexed(r, now) && Bounded(r, now) && r.indexDeadline <= now + INDEX_TTL
  }

  /** The sorted set names every live key and carries exactly the keys' deadlines. */
  ghost predicate Exact(r: Store, now: Instant) {
    && (forall k | LiveHold(r, k, now) :: k in r.index)
    && forall k | k in Index(r, now) && k in r.holds :: r.index[k] == r.holds[k].deadline
  }

  /** TTL answers whole seconds, less than one second off. */
  predicate TtlReading(r: Store, k: Key, ttl: int, now: Instant) {
    k in r.holds ==> -1000 < ttl * 1000 - (r.holds[k].deadline - now) < 1000
  }

  // ----- time passes -----

  lemma Later(r: Store, now: Instant, later: Instant)
    requires InSync(r, now) && now <= later
    ensures InSync(r, later)
    ensures Exact(r, now) ==> Exact(r, later)
  {
    assert forall k | LiveHold(r, k, later) :: LiveHold(r, k, now);
    assert forall s | LivePointer(r, s, later) :: LivePointer(r, s, now);
  }

  // ----- every command keeps the invariant -----

  // Every live key is the session's only one, and `k` is free or the session's own.
  ghost predicate Sole(r: Store, k: Key, s: SessionId, now: Instant) {
    && (forall j | LiveHold(r, j, now) :: r.holds[j].session == s ==> j == k)
    && (LiveHold(r, k, now) ==> r.holds[k].session == s)
  }

  lemma WritePaired(r: Store, k: Key, h: Hold, now: Instant)
    requires Paired(r, now) && Sole(r, k, h.session, now)
    ensures Paired(Write(r, k, h, now), now)
  {
    var r' := Write(r, k, h, now);
    assert forall s | LivePointer(r', s, now) && s != h.session ::
           LivePointer(r, s, now) && LiveHold(r, r.pointers[s].key, now);
    assert forall j | LiveHold(r', j, now) && j != k :: LiveHold(r, j, now);
  }

  lemma WriteIndexed(r: Store, k: Key, h: Hold, now: Instant)
    requires Indexed(r, now) && r.indexDeadline <= now + INDEX_TTL && h.deadline <= now + HOLD_TTL
    ensures Indexed(Write(r, k, h, now), now)
    ensures Exact(r, now) ==> Exact(Write(r, k, h, now), now)
  {
    var r' := Write(r, k, h, now);
    assert forall j | LiveHold(r', j, now) && j != k :: LiveHold(r, j, now);
  }

  // A session's hold goes with its key, its pointer, its member and perhaps its flag.
  lemma ReleaseOwn(r: Store, s: SessionId, k: Key, refreshed: map<SessionId, Instant>, now: Instant)
    requires InSync(r, now) && LiveHold(r, k, now) && r.holds[k].session == s
    requires forall t | t != s && t in r.refreshed :: t in refreshed && refreshed[t] == r.refreshed[t]
    ensures var r' := Store(r.holds - {k}, r.pointers - {s}, refreshed, r.index - {k}, r.indexDeadline);
            && InSync(r', now) && (Exact(r, now) ==> Exact(r', now))
            && (forall j | LiveHold(r', j, now) :: r'.holds[j].session != s)
  {
    var r' := Store(r.holds - {k}, r.pointers - {s}, refreshed, r.index - {k}, r.indexDeadline);
    assert r.pointers[s].key == k;
    assert forall j | LiveHold(r', j, now) :: LiveHold(r, j, now) && r.holds[j].session != s;
    assert forall t | LivePointer(r', t, now) :: LivePointer(r, t, now) && LiveHold(r, r.pointers[t].key, now);
  }

  lemma ForgetKeeps(r: Store, s: SessionId, now: Instant)
    requires InSync(r, now)
    ensures var r' := Forget(r, s, now);
            && InSync(r', now) && (Exact(r, now) ==> Exact(r', now))
            && (forall j | LiveHold(r', j, now) :: r'.holds[j].session != s)
  {
    if LivePointer(r, s, now) { ReleaseOwn(r, s, r.pointers[s].key, r.refreshed, now); }
    assert forall j | LiveHold(r, j, now) && r.holds[j].session == s ::
           LivePointer(r, s, now) && j == r.pointers[s].key;
  }

  // A session takes its own slot again: only the score changes.
  lemma RetakeKeeps(r: Store, k: Key, score: Instant, now: Instant)
    requires InSync(r, now) && LiveHold(r, k, now) && Near(score, r.holds[k].deadline)
    ensures InSync(AddToIndex(r, k, score, now), now)
  {
    var r' := AddToIndex(r, k, score, now);
    assert forall j :: LiveHold(r', j, now) == LiveHold(r, j, now);
    assert forall t :: LivePointer(r', t, now) == LivePointer(r, t, now);
  }

  // A session without a hold takes a free key.
  lemma TakeKeeps(r: Store, s: SessionId, k: Key, id: HoldId, now: Instant)
    requires InSync(r, now) && !LiveHold(r, k, now) && (forall j | LiveHold(r, j, now) :: r.holds[j].session != s)
    ensures InSync(Write(r, k, Hold(s, id, now + HOLD_TTL, now), now), now)
  {
    var h := Hold(s, id, now + HOLD_TTL, now);
    WritePaired(r, k, h, now);
    WriteIndexed(r, k, h, now);
    assert forall j | LiveHold(Write(r, k, h, now), j, now) && j != k :: LiveHold(r, j, now);
  }

  lemma HoldSlotKeeps(r: Store, s: SessionId, k: Key, id: HoldId, ttl: int, now: Instant)
    requires InSync(r, now) && (LiveHold(r, k, now) ==> TtlReading(r, k, ttl, now))
    ensures InSync(HoldSlot(r, s, k, id, ttl, now).0, now)
  {
    if LiveHold(r, k, now) {
      if r.holds[k].session == s { RetakeKeeps(r, k, now + (if ttl > 1 then ttl else 1) * 1000, now); }
    } else {
      ForgetKeeps(r, s, now);
      TakeKeeps(Forget(r, s, now), s, k, id, now);
    }
  }

  lemma RefreshHoldKeeps(r: Store, s: SessionId, id: HoldId, now: Instant)
    requires InSync(r, now)
    ensures var r' := RefreshHold(r, s, id, now).0; InSync(r', now) && (Exact(r, now) ==> Exact(r', now))
  {
    if RefreshHold(r, s, id, now).1 {
      var k := r.pointers[s].key;
      var m := r.(refreshed := r.refreshed[s := now + HOLD_TTL]);
      assert Paired(m, now) && Indexed(m, now) && Sole(m, k, s, now) && (Exact(r, now) ==> Exact(m, now)) by {
        assert forall j :: LiveHold(m, j, now) == LiveHold(r, j, now);
        assert forall t :: LivePointer(m, t, now) == LivePointer(r, t, now);
      }
      var h := r.holds[k].(deadline := now + HOLD_TTL);
      WritePaired(m, k, h, now);
      WriteIndexed(m, k, h, now);
      RefreshBounded(r, s, k, now);
    }
  }

  // A refresh is the key's first, since the flag of an earlier one would still be alive.
  lemma RefreshBounded(r: Store, s: SessionId, k: Key, now: Instant)
    requires Paired(r, now) && Bounded(r, now) && LiveHold(r, k, now) && r.holds[k].session == s
    requires !Refreshed(r, s, now)
    ensures var m := r.(refreshed := r.refreshed[s := now + HOLD_TTL]);
            Bounded(Write(m, k, r.holds[k].(deadline := now + HOLD_TTL), now), now)
  {
    var r' := Write(r.(refreshed := r.refreshed[s := now + HOLD_TTL]), k, r.holds[k].(deadline := now + HOLD_TTL), now);
    assert r.pointers[s].key == k;
    assert forall j | LiveHold(r', j, now) && j != k :: LiveHold(r, j, now) && r.holds[j].session != s;
  }

  lemma ConsumeHoldKeeps(r: Store, s: SessionId, id: HoldId, k: Key, now: Instant)
    requires InSync(r, now)
    ensures var r' := ConsumeHold(r, s, id, k, now).0; InSync(r', now) && (Exact(r, now) ==> Exact(r', now))
    ensures ConsumeHold(r, s, id, k, now).1 ==> !LiveHold(ConsumeHold(r, s, id, k, now).0, k, now)
  {
    if ConsumeHold(r, s, id, k, now).1 { ReleaseOwn(r, s, k, r.refreshed - {s}, now); }
  }

  lemma PruneKeeps(r: Store, now: Instant)
    requires InSync(r, now)
    ensures InSync(Prune(r, now), now) && (Exact(r, now) ==> Exact(Prune(r, now), now))
    ensures Listed(Prune(r, now), now) == Listed(r, now)
  {
    var r' := Prune(r, now);
    assert forall k :: LiveHold(r', k, now) == LiveHold(r, k, now);
    assert forall s :: LivePointer(r', s, now) == LivePointer(r, s, now);
  }

  // ----- what the invariant means -----

  /** A session owns at most one live hold, and it is the one its pointer names. */
  lemma OneHoldEach(r: Store, now: Instant, j: Key, k: Key)
    requires InSync(r, now) && LiveHold(r, j, now) && LiveHold(r, k, now) && r.holds[j].session == r.holds[k].session
    ensures j == k && SessionHold(r, r.holds[k].session, now) == Some(k)
  {
    assert r.pointers[r.holds[j].session].key == j;
  }

  /** Taking a slot never removes or changes another session's hold. */
  lemma HoldSlotLeavesOthers(r: Store, s: SessionId, k: Key, id: HoldId, ttl: int, now: Instant, j: Key)
    requires InSync(r, now) && LiveHold(r, j, now) && r.holds[j].session != s
    ensures var r' := HoldSlot(r, s, k, id, ttl, now).0; LiveHold(r', j, now) && r'.holds[j] == r.holds[j]
  {
    if LivePointer(r, s, now) { assert r.holds[r.pointers[s].key].session == s; }
  }

  /** A hold never outlives its creation by 360 seconds, whatever was held and refreshed in between. */
  lemma HoldBound(r: Store, now: Instant, k: Key)
    requires InSync(r, now) && LiveHold(r, k, now)
    ensures r.holds[k].deadline < r.holds[k].born + 360_000 && now < r.holds[k].born + 360_000
  {
  }

  /** The list names every hold with a second to live and nothing that died a second ago. */
  lemma ListedNearly(r: Store, now: Instant, k: Key)
    requires InSync(r, now)
    ensures LiveHold(r, k, now) && r.holds[k].deadline > now + 1000 ==> k in Listed(r, now)
    ensures k in Listed(r, now) ==> k in r.holds && now - 1000 < r.holds[k].deadline
  {
  }

  /** While the index is exact the list is the set of live holds. */
  lemma ListedExactly(r: Store, now: Instant, k: Key)
    requires InSync(r, now) && Exact(r, now)
    ensures k in Listed(r, now) <==> LiveHold(r, k, now)
  {
  }

  predicate WholeSeconds(r: Store, k: Key, now: Instant) {
    LiveHold(r, k, now) ==> (r.holds[k].deadline - now) % 1000 == 0
  }

  /**
   * The index stays exact unless a session takes its own slot again at an instant that is no whole number of
   * seconds before the deadline: TTL answers seconds, so the copied score is off.
   */
  lemma HoldSlotExact(r: Store, s: SessionId, k: Key, id: HoldId, ttl: int, now: Instant)
    requires InSync(r, now) && Exact(r, now) && (LiveHold(r, k, now) ==> TtlReading(r, k, ttl, now))
    ensures Exact(HoldSlot(r, s, k, id, ttl, now).0, now)
            <==> (LiveHold(r, k, now) && r.holds[k].session == s ==> WholeSeconds(r, k, now))
  {
    var r' := HoldSlot(r, s, k, id, ttl, now).0;
    if LiveHold(r, k, now) {
      if r.holds[k].session == s {
        assert k in Index(r', now);
      }
    } else {
      ForgetKeeps(r, s, now);
      WriteIndexed(Forget(r, s, now), k, Hold(s, id, now + HOLD_TTL, now), now);
    }
  }
}
