/** What each command on the holds does and when, written out over the keys. */
module HoldLaws {
  import opened Domain
  import opened Holds

  /** The session's key is alive and names a live hold of the session. */
  predicate Holding(r: Store, s: SessionId, k: Key, now: Instant) {
    && s in r.pointers && now < r.pointers[s].deadline && r.pointers[s].key == k
    && k in r.holds && now < r.holds[k].deadline && r.holds[k].session == s
  }

  predicate FlagAlive(r: Store, s: SessionId, now: Instant) {
    s in r.refreshed && now < r.refreshed[s]
  }

  lemma PeeksExactly(r: Store, s: SessionId, id: HoldId, now: Instant, k: Key)
    ensures PeekHold(r, s, id, now) == Some(k) <==> Holding(r, s, k, now) && r.holds[k].holdId == id
    ensures SessionHold(r, s, now) == Some(k) <==> Holding(r, s, k, now)
  {
  }

  /** The sorted set is a key of its own: when it has died, nothing is in it. */
  lemma ListsExactly(r: Store, now: Instant, k: Key)
    ensures k in Listed(r, now) <==> now < r.indexDeadline && k in r.index && now < r.index[k]
  {
  }

  lemma PrunesExactly(r: Store, now: Instant)
    ensures var r' := Prune(r, now);
            && r'.holds == r.holds && r'.pointers == r.pointers && r'.refreshed == r.refreshed
            && r'.indexDeadline == r.indexDeadline
            && (forall k :: k in r'.index <==> now < r.indexDeadline && k in r.index && now < r.index[k])
            && (forall k | k in r'.index :: r'.index[k] == r.index[k])
  {
  }

  /** The members of the sorted set with one score written, for a day. */
  ghost predicate Scored(r: Store, r': Store, k: Key, score: Instant, gone: set<Key>, now: Instant) {
    && r'.indexDeadline == now + 86_400_000
    && k in r'.index && r'.index[k] == score
    && (forall j | j != k :: j in r'.index <==> now < r.indexDeadline && j in r.index && j !in gone)
    && (forall j | j != k && j in r'.index :: r'.index[j] == r.index[j])
  }

  /** A live key of another session is refused, one's own is only scored anew. */
  lemma HoldsTaken(r: Store, s: SessionId, k: Key, id: HoldId, ttl: int, now: Instant)
    requires k in r.holds && now < r.holds[k].deadline
    ensures var (r', taken) := HoldSlot(r, s, k, id, ttl, now);
            if r.holds[k].session != s then !taken && r' == r
            else
              && taken && r'.holds == r.holds && r'.pointers == r.pointers && r'.refreshed == r.refreshed
              && Scored(r, r', k, now + 1000 * (if ttl < 1 then 1 else ttl), {}, now)
  {
  }

  /** The key the session's live pointer names. */
  function Earlier(r: Store, s: SessionId, now: Instant): set<Key> {
    if s in r.pointers && now < r.pointers[s].deadline then {r.pointers[s].key} else {}
  }

  /** A free key is the session's for three minutes, and the one it had before is gone. */
  lemma HoldsFree(r: Store, s: SessionId, k: Key, id: HoldId, ttl: int, now: Instant)
    requires !(k in r.holds && now < r.holds[k].deadline)
    ensures var (r', taken) := HoldSlot(r, s, k, id, ttl, now);
            && taken
            && r'.holds == (r.holds - Earlier(r, s, now))[k := Hold(s, id, now + 180_000, now)]
            && r'.pointers == r.pointers[s := Pointer(k, now + 180_000)]
            && r'.refreshed == r.refreshed
            && Scored(r, r', k, now + 180_000, Earlier(r, s, now), now)
  {
  }

  /** A refresh succeeds exactly on the session's live hold with this identifier while its flag is dead. */
  lemma RefreshesWhen(r: Store, s: SessionId, id: HoldId, now: Instant)
    ensures RefreshHold(r, s, id, now).1 <==>
              (exists k :: Holding(r, s, k, now) && r.holds[k].holdId == id) && !FlagAlive(r, s, now)
    ensures !RefreshHold(r, s, id, now).1 ==> RefreshHold(r, s, id, now).0 == r
  {
    if PeekHold(r, s, id, now).Some? { assert Holding(r, s, r.pointers[s].key, now); }
  }

  /** Then the key, the session's key, the flag and the score get another three minutes, and nothing else changes. */
  lemma RefreshProlongs(r: Store, s: SessionId, id: HoldId, now: Instant, k: Key)
    requires Holding(r, s, k, now) && r.holds[k].holdId == id && !FlagAlive(r, s, now)
    ensures var r' := RefreshHold(r, s, id, now).0;
            && r'.holds == r.holds[k := Hold(s, id, now + 180_000, r.holds[k].born)]
            && r'.pointers == r.pointers[s := Pointer(k, now + 180_000)]
            && r'.refreshed == r.refreshed[s := now + 180_000]
            && Scored(r, r', k, now + 180_000, {}, now)
  {
  }

  /** Consuming takes exactly the live hold with this session and identifier, and everything that belongs to it. */
  lemma ConsumesSo(r: Store, s: SessionId, id: HoldId, k: Key, now: Instant)
    ensures var (r', done) := ConsumeHold(r, s, id, k, now);
            && (done <==>
                  k in r.holds && now < r.holds[k].deadline && r.holds[k].session == s && r.holds[k].holdId == id)
            && r' == if !done then r
                     else Store(r.holds - {k}, r.pointers - {s}, r.refreshed - {s}, r.index - {k}, r.indexDeadline)
  {
  }
}
