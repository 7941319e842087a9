/** The purge of old records: the only step that deletes tickets and assignments. */
module Retention {
  import opened Domain
  import opened Tables
  import opened Storage

  const BATCH := 500

  class RetentionService {
    const db: Database

    constructor (db: Database)
      ensures this.db == db
    {
      this.db := db;
    }

    /** `ids` is the answer to the query for closed tickets that have not been touched for long. */
    method PurgeExpired(ids: set<TicketId>) returns (purged: nat)
      requires |ids| <= BATCH && forall t | t in ids :: t in db.tickets && Terminal(db.tickets[t].status)
      modifies db
      ensures db.View() == Purge(old(db.View()), ids)
      ensures purged == |ids| <= BATCH
      ensures Safe(old(db.View())) ==>
                Safe(db.View()) && forall a :: IsActive(db.View(), a) <==> IsActive(old(db.View()), a)
    {
      ghost var s := db.View();
      if ids != {} {
        db.assignments := map a | a in db.assignments && db.assignments[a].ticket !in ids :: db.assignments[a];
        db.tickets := db.tickets - ids;
      }
      assert ids == {} ==>
        (map a | a in s.assignments && s.assignments[a].ticket !in ids :: s.assignments[a]) == s.assignments;
      assert db.View() == Purge(s, ids);
      if Safe(s) { PurgeSafe(s, ids); }
      return |ids|;
    }
  }
}
