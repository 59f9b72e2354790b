/**
 * The user side of likes. `gem` itself runs the hooks wired up in module
 * Rater, so it lives there; this module holds the reads, the two SADDs of a
 * like and `ungem`, whose only hook is the score update after it.
 */
module Gemr {
  import opened Store
  import opened Configuration
  import Calculations
  import Gemable

  /** gems?: SISMEMBER of the item in the user's gemd set for its class. */
  function Gems(db: Db, user: string, it: Item): bool {
    it.id in db.Members(GemdSet(it.klass, user))
  }

  /** gemd_ids_for(klass): SMEMBERS of the user's gemd set for the class. */
  function GemdIds(db: Db, klass: string, user: string): set<string> {
    db.Members(GemdSet(klass, user))
  }

  /**
   * gemd_count_for(klass): SCARD of the same set. With the reverse index in
   * place it is zero exactly when the user is in no gemd_by set of the class.
   */
  function GemdCount(db: Db, klass: string, user: string): (n: nat)
    ensures GemdIndexed(db) ==> (n == 0 <==> forall id :: user !in db.Members(GemdBySet(klass, id)))
  {
    |db.Members(GemdSet(klass, user))|
  }

  /** gems_count: the inject over the ratable classes, in order. */
  function GemsCount(db: Db, classes: seq<string>, user: string): nat {
    if classes == [] then 0
    else GemsCount(db, classes[..|classes| - 1], user) + GemdCount(db, classes[|classes| - 1], user)
  }

  /** gemd_ids_in_common_with(klass, other): SINTER of the two users' gemd sets. */
  function GemdIdsInCommon(db: Db, klass: string, user: string, other: string): set<string> {
    db.Members(GemdSet(klass, user)) * db.Members(GemdSet(klass, other))
  }

  /** The two SADDs of `gem`: the item into the user's set, the user into the item's. */
  function AddGem(db: Db, user: string, it: Item): Db {
    db.SAdd(GemdSet(it.klass, user), it.id).SAdd(GemdBySet(it.klass, it.id), user)
  }

  /** The two SREMs of `ungem`. */
  function RemoveGem(db: Db, user: string, it: Item): Db {
    db.SRem(GemdSet(it.klass, user), it.id).SRem(GemdBySet(it.klass, it.id), user)
  }

  /**
   * ungem: nil (false here) with no change when the item is not gemd;
   * otherwise both memberships go, the item's score is recomputed, and the
   * result is true.
   */
  function Ungem(db: Db, cfg: Config, user: string, it: Item): (bool, Db) {
    if !Gems(db, user, it) then (false, db)
    else (true, Calculations.UpdateScore(RemoveGem(db, user, it), cfg, it.klass, it.id).1)
  }

  /** What the two SADDs do to each set; sorted sets are untouched. */
  lemma AddGemMembers(db: Db, user: string, it: Item, k: SetKey)
    ensures var d := AddGem(db, user, it);
      && d.zsets == db.zsets
      && d.Members(k) ==
        if k == GemdSet(it.klass, user) then db.Members(k) + {it.id}
        else if k == GemdBySet(it.klass, it.id) then db.Members(k) + {user}
        else db.Members(k)
  {
  }

  /** What the two SREMs do to each set; sorted sets are untouched. */
  lemma RemoveGemMembers(db: Db, user: string, it: Item, k: SetKey)
    ensures var d := RemoveGem(db, user, it);
      && d.zsets == db.zsets
      && d.Members(k) ==
        if k == GemdSet(it.klass, user) then db.Members(k) - {it.id}
        else if k == GemdBySet(it.klass, it.id) then db.Members(k) - {user}
        else db.Members(k)
  {
  }

  /** The SADDs keep the two sides of the like index in step. */
  lemma AddGemKeepsIndex(db: Db, user: string, it: Item)
    requires ReverseIndexed(db)
    ensures ReverseIndexed(AddGem(db, user, it))
  {
    var d := AddGem(db, user, it);
    forall c, u, i ensures i in d.Members(GemdSet(c, u)) <==> u in d.Members(GemdBySet(c, i)) {
      AddGemMembers(db, user, it, GemdSet(c, u));
      AddGemMembers(db, user, it, GemdBySet(c, i));
    }
    forall c, u, i ensures i in d.Members(DisgemdSet(c, u)) <==> u in d.Members(DisgemdBySet(c, i)) {
      AddGemMembers(db, user, it, DisgemdSet(c, u));
      AddGemMembers(db, user, it, DisgemdBySet(c, i));
    }
  }

  /** The SREMs keep the two sides of the like index in step. */
  lemma RemoveGemKeepsIndex(db: Db, user: string, it: Item)
    requires ReverseIndexed(db)
    ensures ReverseIndexed(RemoveGem(db, user, it))
  {
    var d := RemoveGem(db, user, it);
    forall c, u, i ensures i in d.Members(GemdSet(c, u)) <==> u in d.Members(GemdBySet(c, i)) {
      RemoveGemMembers(db, user, it, GemdSet(c, u));
      RemoveGemMembers(db, user, it, GemdBySet(c, i));
    }
    forall c, u, i ensures i in d.Members(DisgemdSet(c, u)) <==> u in d.Members(DisgemdBySet(c, i)) {
      RemoveGemMembers(db, user, it, DisgemdSet(c, u));
      RemoveGemMembers(db, user, it, DisgemdBySet(c, i));
    }
  }

  /**
   * A new like raises the user's gems_count by one for each time its class
   * is listed, and leaves every other user's count alone.
   */
  lemma {:induction false} GemsCountAfterAdd(db: Db, classes: seq<string>, user: string, other: string, it: Item)
    requires !Gems(db, user, it)
    ensures GemsCount(AddGem(db, user, it), classes, user) == GemsCount(db, classes, user) + Occurrences(classes, it.klass)
    ensures other != user ==> GemsCount(AddGem(db, user, it), classes, other) == GemsCount(db, classes, other)
    decreases |classes|
  {
    if classes != [] {
      var last := classes[|classes| - 1];
      GemsCountAfterAdd(db, classes[..|classes| - 1], user, other, it);
      GemdCountAfterAdd(db, last, user, other, it);
    }
  }

  /** A new like adds one to the liking user's count for its own class and to nobody else's. */
  lemma GemdCountAfterAdd(db: Db, klass: string, user: string, other: string, it: Item)
    requires !Gems(db, user, it)
    ensures GemdCount(AddGem(db, user, it), klass, user) == GemdCount(db, klass, user) + (if klass == it.klass then 1 else 0)
    ensures other != user ==> GemdCount(AddGem(db, user, it), klass, other) == GemdCount(db, klass, other)
  {
    AddGemMembers(db, user, it, GemdSet(klass, user));
    AddGemMembers(db, user, it, GemdSet(klass, other));
  }

  /** Liking an item of one class leaves the gemd set and count of every other class unchanged. */
  lemma AddGemOtherClass(db: Db, user: string, other: string, it: Item, klass: string)
    requires klass != it.klass
    ensures GemdIds(AddGem(db, user, it), klass, other) == GemdIds(db, klass, other)
    ensures GemdCount(AddGem(db, user, it), klass, other) == GemdCount(db, klass, other)
  {
    AddGemMembers(db, user, it, GemdSet(klass, other));
  }

  /** ungem of an item that is not gemd returns nil and changes nothing. */
  lemma UngemNotGemd(db: Db, cfg: Config, user: string, it: Item)
    requires !Gems(db, user, it)
    ensures Ungem(db, cfg, user, it) == (false, db)
  {
  }

  /**
   * ungem of a gemd item returns true and removes both memberships; no other
   * set changes.
   */
  lemma UngemRemoves(db: Db, cfg: Config, user: string, it: Item, k: SetKey)
    requires Gems(db, user, it)
    ensures var r := Ungem(db, cfg, user, it);
      && r.0
      && !Gems(r.1, user, it)
      && user !in r.1.Members(GemdBySet(it.klass, it.id))
      && (k != GemdSet(it.klass, user) && k != GemdBySet(it.klass, it.id) ==> r.1.Members(k) == db.Members(k))
  {
    var d := RemoveGem(db, user, it);
    RemoveGemMembers(db, user, it, k);
    RemoveGemMembers(db, user, it, GemdSet(it.klass, user));
    RemoveGemMembers(db, user, it, GemdBySet(it.klass, it.id));
    Calculations.UpdateScoreFrame(d, cfg, it.klass, it.id, ScoreSet(it.klass), it.id);
  }

  /**
   * ungem of a liked item lowers by one both the user's gemd_count_for
   * of its class and the item's gemd_by_count.
   */
  lemma UngemLowersCounts(db: Db, cfg: Config, user: string, it: Item)
    requires Gems(db, user, it) && GemdIndexed(db)
    ensures var d := Ungem(db, cfg, user, it).1;
      && GemdCount(d, it.klass, user) == GemdCount(db, it.klass, user) - 1
      && Gemable.GemdByCount(d, it) == Gemable.GemdByCount(db, it) - 1
  {
    var d := RemoveGem(db, user, it);
    RemoveGemMembers(db, user, it, GemdSet(it.klass, user));
    RemoveGemMembers(db, user, it, GemdBySet(it.klass, it.id));
    Calculations.UpdateScoreFrame(d, cfg, it.klass, it.id, ScoreSet(it.klass), it.id);
  }

  /** ungem keeps the reverse index. */
  lemma UngemKeepsIndex(db: Db, cfg: Config, user: string, it: Item)
    requires ReverseIndexed(db)
    ensures ReverseIndexed(Ungem(db, cfg, user, it).1)
  {
    if Gems(db, user, it) {
      var d := RemoveGem(db, user, it);
      RemoveGemKeepsIndex(db, user, it);
      Calculations.UpdateScoreFrame(d, cfg, it.klass, it.id, ScoreSet(it.klass), it.id);
      InvariantsOfSets(d, Calculations.UpdateScore(d, cfg, it.klass, it.id).1);
    }
  }

  /** The count is positive exactly when some listed class has a non-empty set. */
  lemma {:induction false} GemsCountPositive(db: Db, classes: seq<string>, user: string)
    ensures GemsCount(db, classes, user) > 0 <==> exists i :: 0 <= i < |classes| && GemdCount(db, classes[i], user) > 0
    decreases |classes|
  {
    if classes != [] {
      var init := classes[..|classes| - 1];
      GemsCountPositive(db, init, user);
      assert forall i :: 0 <= i < |init| ==> init[i] == classes[i];
    }
  }

  method GemsFor(redis: Redis, user: string, it: Item) returns (b: bool)
    ensures b == Gems(redis.State(), user, it)
  {
    b := redis.SIsMember(GemdSet(it.klass, user), it.id);
  }

  /** ungem over the store: the guard, the two SREMs and the after-hook. */
  method UngemFor(redis: Redis, cfg: Config, user: string, it: Item) returns (ok: bool)
    modifies redis
    ensures (ok, redis.State()) == Ungem(old(redis.State()), cfg, user, it)
  {
    var gems := GemsFor(redis, user, it);
    if !gems {
      return false;
    }
    redis.SRem(GemdSet(it.klass, user), it.id);
    redis.SRem(GemdBySet(it.klass, it.id), user);
    var _ := Calculations.UpdateScoreFor(redis, cfg, it.klass, it.id);
    ok := true;
  }

  /** gems_count over the store: one SCARD per class, summed in order. */
  method GemsCountFor(redis: Redis, classes: seq<string>, user: string) returns (n: nat)
    ensures n == GemsCount(redis.State(), classes, user)
  {
    n := 0;
    for i := 0 to |classes|
      invariant n == GemsCount(redis.State(), classes[..i], user)
    {
      var c := redis.SCard(GemdSet(classes[i], user));
      assert classes[..i + 1][..i] == classes[..i];
      n := n + c;
    }
    assert classes[..|classes|] == classes;
  }

  /** gemd_ids_in_common_with over the store: the items both users like. */
  method GemdIdsInCommonWith(redis: Redis, klass: string, user: string, other: string) returns (ids: set<string>)
    ensures ids == GemdIdsInCommon(redis.State(), klass, user, other)
    ensures forall x :: x in ids <==> Gems(redis.State(), user, Item(klass, x)) && Gems(redis.State(), other, Item(klass, x))
  {
    ids := redis.SInter(GemdSet(klass, user), GemdSet(klass, other));
  }
}
