/**
 * The item side of dislikes: the users recorded in an item's disgemd_by set.
 * `disgemd_by` itself (an ORM query over those ids) is not part of this model.
 */
module Disgemable {
  import opened Store

  /** disgemd_by_ids: SMEMBERS of the item's disgemd_by set. */
  function DisgemdByIds(db: Db, it: Item): set<string> {
    db.Members(DisgemdBySet(it.klass, it.id))
  }

  /**
   * disgemd_by_count: SCARD of the same set. With the reverse index in place it
   * is zero exactly when no user's disgemd set for the item's class holds the item.
   */
  function DisgemdByCount(db: Db, it: Item): (n: nat)
    ensures DisgemdIndexed(db) ==> (n == 0 <==> forall u :: it.id !in db.Members(DisgemdSet(it.klass, u)))
  {
    |db.Members(DisgemdBySet(it.klass, it.id))|
  }

  /**
   * With the reverse index in place, the ids are exactly the users whose
   * disgemd set for the item's class holds the item.
   */
  lemma DisgemdByIdsExact(db: Db, it: Item, user: string)
    requires DisgemdIndexed(db)
    ensures user in DisgemdByIds(db, it) <==> it.id in db.Members(DisgemdSet(it.klass, user))
  {
  }

  method DisgemdByIdsFor(redis: Redis, it: Item) returns (ids: set<string>)
    ensures ids == DisgemdByIds(redis.State(), it)
  {
    ids := redis.SMembers(DisgemdBySet(it.klass, it.id));
  }

  method DisgemdByCountFor(redis: Redis, it: Item) returns (n: nat)
    ensures n == DisgemdByCount(redis.State(), it)
  {
    n := redis.SCard(DisgemdBySet(it.klass, it.id));
  }
}
