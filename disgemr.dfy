/**
 * The user side of dislikes. `disgem` itself runs the hooks wired up in module
 * Rater, so it lives there; this module holds the reads, the two SADDs of a
 * dislike and `undisgem`, whose only hook is the score update after it.
 */
module Disgemr {
  import opened Store
  import opened Configuration
  import Calculations
  import Disgemable

  /** disgems?: SISMEMBER of the item in the user's disgemd set for its class. */
  function Disgems(db: Db, user: string, it: Item): bool {
    it.id in db.Members(DisgemdSet(it.klass, user))
  }

  /** disgemd_ids_for(klass): SMEMBERS of the user's disgemd set for the class. */
  function DisgemdIds(db: Db, klass: string, user: string): set<string> {
    db.Members(DisgemdSet(klass, user))
  }

  /**
   * disgemd_count_for(klass): SCARD of the same set. With the reverse index in
   * place it is zero exactly when the user is in no disgemd_by set of the class.
   */
  function DisgemdCount(db: Db, klass: string, user: string): (n: nat)
    ensures DisgemdIndexed(db) ==> (n == 0 <==> forall id :: user !in db.Members(DisgemdBySet(klass, id)))
  {
    |db.Members(DisgemdSet(klass, user))|
  }

  /** disgems_count: the inject over the ratable classes, in order. */
  function DisgemsCount(db: Db, classes: seq<string>, user: string): nat {
    if classes == [] then 0
    else DisgemsCount(db, classes[..|classes| - 1], user) + DisgemdCount(db, classes[|classes| - 1], user)
  }

  /** disgemd_ids_in_common_with(klass, other): SINTER of the two users' disgemd sets. */
  function DisgemdIdsInCommon(db: Db, klass: string, user: string, other: string): set<string> {
    db.Members(DisgemdSet(klass, user)) * db.Members(DisgemdSet(klass, other))
  }

  /** The two SADDs of `disgem`: the item into the user's set, the user into the item's. */
  function AddDisgem(db: Db, user: string, it: Item): Db {
    db.SAdd(DisgemdSet(it.klass, user), it.id).SAdd(DisgemdBySet(it.klass, it.id), user)
  }

  /** The two SREMs of `undisgem`. */
  function RemoveDisgem(db: Db, user: string, it: Item): Db {
    db.SRem(DisgemdSet(it.klass, user), it.id).SRem(DisgemdBySet(it.klass, it.id), user)
  }

  /**
   * undisgem: nil (false here) with no change when the item is not disgemd;
   * otherwise both memberships go, the item's score is recomputed, and the
   * result is true.
   */
  function Undisgem(db: Db, cfg: Config, user: string, it: Item): (bool, Db) {
    if !Disgems(db, user, it) then (false, db)
    else (true, Calculations.UpdateScore(RemoveDisgem(db, user, it), cfg, it.klass, it.id).1)
  }

  /** What the two SADDs do to each set; sorted sets are untouched. */
  lemma AddDisgemMembers(db: Db, user: string, it: Item, k: SetKey)
    ensures var d := AddDisgem(db, user, it);
      && d.zsets == db.zsets
      && d.Members(k) ==
        if k == DisgemdSet(it.klass, user) then db.Members(k) + {it.id}
        else if k == DisgemdBySet(it.klass, it.id) then db.Members(k) + {user}
        else db.Members(k)
  {
  }

  /** What the two SREMs do to each set; sorted sets are untouched. */
  lemma RemoveDisgemMembers(db: Db, user: string, it: Item, k: SetKey)
    ensures var d := RemoveDisgem(db, user, it);
      && d.zsets == db.zsets
      && d.Members(k) ==
        if k == DisgemdSet(it.klass, user) then db.Members(k) - {it.id}
        else if k == DisgemdBySet(it.klass, it.id) then db.Members(k) - {user}
        else db.Members(k)
  {
  }

  /** The SADDs keep the two sides of the dislike index in step. */
  lemma AddDisgemKeepsIndex(db: Db, user: string, it: Item)
    requires ReverseIndexed(db)
    ensures ReverseIndexed(AddDisgem(db, user, it))
  {
    var d := AddDisgem(db, user, it);
    forall c, u, i ensures i in d.Members(DisgemdSet(c, u)) <==> u in d.Members(DisgemdBySet(c, i)) {
      AddDisgemMembers(db, user, it, DisgemdSet(c, u));
      AddDisgemMembers(db, user, it, DisgemdBySet(c, i));
    }
    forall c, u, i ensures i in d.Members(GemdSet(c, u)) <==> u in d.Members(GemdBySet(c, i)) {
      AddDisgemMembers(db, user, it, GemdSet(c, u));
      AddDisgemMembers(db, user, it, GemdBySet(c, i));
    }
  }

  /** The SREMs keep the two sides of the dislike index in step. */
  lemma RemoveDisgemKeepsIndex(db: Db, user: string, it: Item)
    requires ReverseIndexed(db)
    ensures ReverseIndexed(RemoveDisgem(db, user, it))
  {
    var d := RemoveDisgem(db, user, it);
    forall c, u, i ensures i in d.Members(DisgemdSet(c, u)) <==> u in d.Members(DisgemdBySet(c, i)) {
      RemoveDisgemMembers(db, user, it, DisgemdSet(c, u));
      RemoveDisgemMembers(db, user, it, DisgemdBySet(c, i));
    }
    forall c, u, i ensures i in d.Members(GemdSet(c, u)) <==> u in d.Members(GemdBySet(c, i)) {
      RemoveDisgemMembers(db, user, it, GemdSet(c, u));
      RemoveDisgemMembers(db, user, it, GemdBySet(c, i));
    }
  }

  /**
   * A new dislike raises the user's disgems_count by one for each time its class
   * is listed, and leaves every other user's count alone.
   */
  lemma {:induction false} DisgemsCountAfterAdd(db: Db, classes: seq<string>, user: string, other: string, it: Item)
    requires !Disgems(db, user, it)
    ensures DisgemsCount(AddDisgem(db, user, it), classes, user) == DisgemsCount(db, classes, user) + Occurrences(classes, it.klass)
    ensures other != user ==> DisgemsCount(AddDisgem(db, user, it), classes, other) == DisgemsCount(db, classes, other)
    decreases |classes|
  {
    if classes != [] {
      var last := classes[|classes| - 1];
      DisgemsCountAfterAdd(db, classes[..|classes| - 1], user, other, it);
      DisgemdCountAfterAdd(db, last, user, other, it);
    }
  }

  /** A new dislike adds one to the disliking user's count for its own class and to nobody else's. */
  lemma DisgemdCountAfterAdd(db: Db, klass: string, user: string, other: string, it: Item)
    requires !Disgems(db, user, it)
    ensures DisgemdCount(AddDisgem(db, user, it), klass, user) == DisgemdCount(db, klass, user) + (if klass == it.klass then 1 else 0)
    ensures other != user ==> DisgemdCount(AddDisgem(db, user, it), klass, other) == DisgemdCount(db, klass, other)
  {
    AddDisgemMembers(db, user, it, DisgemdSet(klass, user));
    AddDisgemMembers(db, user, it, DisgemdSet(klass, other));
  }

  /** Disliking an item of one class leaves the disgemd set and count of every other class unchanged. */
  lemma AddDisgemOtherClass(db: Db, user: string, other: string, it: Item, klass: string)
    requires klass != it.klass
    ensures DisgemdIds(AddDisgem(db, user, it), klass, other) == DisgemdIds(db, klass, other)
    ensures DisgemdCount(AddDisgem(db, user, it), klass, other) == DisgemdCount(db, klass, other)
  {
    AddDisgemMembers(db, user, it, DisgemdSet(klass, other));
  }

  /** undisgem of an item that is not disgemd returns nil and changes nothing. */
  lemma UndisgemNotDisgemd(db: Db, cfg: Config, user: string, it: Item)
    requires !Disgems(db, user, it)
    ensures Undisgem(db, cfg, user, it) == (false, db)
  {
  }

  /**
   * undisgem of a disgemd item returns true and removes both memberships; no other
   * set changes.
   */
  lemma UndisgemRemoves(db: Db, cfg: Config, user: string, it: Item, k: SetKey)
    requires Disgems(db, user, it)
    ensures var r := Undisgem(db, cfg, user, it);
      && r.0
      && !Disgems(r.1, user, it)
      && user !in r.1.Members(DisgemdBySet(it.klass, it.id))
      && (k != DisgemdSet(it.klass, user) && k != DisgemdBySet(it.klass, it.id) ==> r.1.Members(k) == db.Members(k))
  {
    var d := RemoveDisgem(db, user, it);
    RemoveDisgemMembers(db, user, it, k);
    RemoveDisgemMembers(db, user, it, DisgemdSet(it.klass, user));
    RemoveDisgemMembers(db, user, it, DisgemdBySet(it.klass, it.id));
    Calculations.UpdateScoreFrame(d, cfg, it.klass, it.id, ScoreSet(it.klass), it.id);
  }

  /**
   * undisgem of a disliked item lowers by one both the user's disgemd_count_for
   * of its class and the item's disgemd_by_count.
   */
  lemma UndisgemLowersCounts(db: Db, cfg: Config, user: string, it: Item)
    requires Disgems(db, user, it) && DisgemdIndexed(db)
    ensures var d := Undisgem(db, cfg, user, it).1;
      && DisgemdCount(d, it.klass, user) == DisgemdCount(db, it.klass, user) - 1
      && Disgemable.DisgemdByCount(d, it) == Disgemable.DisgemdByCount(db, it) - 1
  {
    var d := RemoveDisgem(db, user, it);
    RemoveDisgemMembers(db, user, it, DisgemdSet(it.klass, user));
    RemoveDisgemMembers(db, user, it, DisgemdBySet(it.klass, it.id));
    Calculations.UpdateScoreFrame(d, cfg, it.klass, it.id, ScoreSet(it.klass), it.id);
  }

  /** undisgem keeps the reverse index. */
  lemma UndisgemKeepsIndex(db: Db, cfg: Config, user: string, it: Item)
    requires ReverseIndexed(db)
    ensures ReverseIndexed(Undisgem(db, cfg, user, it).1)
  {
    if Disgems(db, user, it) {
      var d := RemoveDisgem(db, user, it);
      RemoveDisgemKeepsIndex(db, user, it);
      Calculations.UpdateScoreFrame(d, cfg, it.klass, it.id, ScoreSet(it.klass), it.id);
      InvariantsOfSets(d, Calculations.UpdateScore(d, cfg, it.klass, it.id).1);
    }
  }

  /** The count is positive exactly when some listed class has a non-empty set. */
  lemma {:induction false} DisgemsCountPositive(db: Db, classes: seq<string>, user: string)
    ensures DisgemsCount(db, classes, user) > 0 <==> exists i :: 0 <= i < |classes| && DisgemdCount(db, classes[i], user) > 0
    decreases |classes|
  {
    if classes != [] {
      var init := classes[..|classes| - 1];
      DisgemsCountPositive(db, init, user);
      assert forall i :: 0 <= i < |init| ==> init[i] == classes[i];
    }
  }

  method DisgemsFor(redis: Redis, user: string, it: Item) returns (b: bool)
    ensures b == Disgems(redis.State(), user, it)
  {
    b := redis.SIsMember(DisgemdSet(it.klass, user), it.id);
  }

  /** undisgem over the store: the guard, the two SREMs and the after-hook. */
  method UndisgemFor(redis: Redis, cfg: Config, user: string, it: Item) returns (ok: bool)
    modifies redis
    ensures (ok, redis.State()) == Undisgem(old(redis.State()), cfg, user, it)
  {
    var disgems := DisgemsFor(redis, user, it);
    if !disgems {
      return false;
    }
    redis.SRem(DisgemdSet(it.klass, user), it.id);
    redis.SRem(DisgemdBySet(it.klass, it.id), user);
    var _ := Calculations.UpdateScoreFor(redis, cfg, it.klass, it.id);
    ok := true;
  }

  /** disgems_count over the store: one SCARD per class, summed in order. */
  method DisgemsCountFor(redis: Redis, classes: seq<string>, user: string) returns (n: nat)
    ensures n == DisgemsCount(redis.State(), classes, user)
  {
    n := 0;
    for i := 0 to |classes|
      invariant n == DisgemsCount(redis.State(), classes[..i], user)
    {
      var c := redis.SCard(DisgemdSet(classes[i], user));
      assert classes[..i + 1][..i] == classes[..i];
      n := n + c;
    }
    assert classes[..|classes|] == classes;
  }

  /** disgemd_ids_in_common_with over the store: the items both users dislike. */
  method DisgemdIdsInCommonWith(redis: Redis, klass: string, user: string, other: string) returns (ids: set<string>)
    ensures ids == DisgemdIdsInCommon(redis.State(), klass, user, other)
    ensures forall x :: x in ids <==> Disgems(redis.State(), user, Item(klass, x)) && Disgems(redis.State(), other, Item(klass, x))
  {
    ids := redis.SInter(DisgemdSet(klass, user), DisgemdSet(klass, other));
  }
}
