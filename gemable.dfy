/**
 * The item side of likes: the users recorded in an item's gemd_by set.
 * `gemd_by` itself (an ORM query over those ids) is not part of this model.
 */
module Gemable {
  import opened Store

  /** gemd_by_ids: SMEMBERS of the item's gemd_by set. */
  function GemdByIds(db: Db, it: Item): set<string> {
    db.Members(GemdBySet(it.klass, it.id))
  }

  /**
   * gemd_by_count: SCARD of the same set. With the reverse index in place it
   * is zero exactly when no user's gemd set for the item's class holds the item.
   */
  function GemdByCount(db: Db, it: Item): (n: nat)
    ensures GemdIndexed(db) ==> (n == 0 <==> forall u :: it.id !in db.Members(GemdSet(it.klass, u)))
  {
    |db.Members(GemdBySet(it.klass, it.id))|
  }

  /**
   * With the reverse index in place, the ids are exactly the users whose
   * gemd set for the item's class holds the item.
   */
  lemma GemdByIdsExact(db: Db, it: Item, user: string)
    requires GemdIndexed(db)
    ensures user in GemdByIds(db, it) <==> it.id in db.Members(GemdSet(it.klass, user))
  {
  }

  method GemdByIdsFor(redis: Redis, it: Item) returns (ids: set<string>)
    ensures ids == GemdByIds(redis.State(), it)
  {
    ids := redis.SMembers(GemdBySet(it.klass, it.id));
  }

  method GemdByCountFor(redis: Redis, it: Item) returns (n: nat)
    ensures n == GemdByCount(redis.State(), it)
  {
    n := redis.SCard(GemdBySet(it.klass, it.id));
  }
}
