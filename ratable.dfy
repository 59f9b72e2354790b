/**
 * The item side: registration of ratable classes, an item's `rated?`, the
 * per-class `top` query and `remove_from_recommendable!`, the cascade delete
 * run before an item is destroyed.
 */
module Ratable {
  import opened Wrappers
  import opened SortedSet
  import opened Store
  import opened Configuration
  import opened Gemable
  import opened Disgemable

  // ---------------------------------------------------------------------
  // Registration
  // ---------------------------------------------------------------------

  /** recommendable?: the class was registered as ratable. */
  predicate IsRecommendable(cfg: Config, klass: string) {
    klass in cfg.ratableClasses
  }

  /** make_recommendable!: the class is appended to the ratable classes. */
  function MakeRecommendable(cfg: Config, klass: string): Config {
    cfg.(ratableClasses := cfg.ratableClasses + [klass])
  }

  /** make_recommendable! on each class named, in order. */
  function RegisterAll(cfg: Config, things: seq<string>): Config
    decreases |things|
  {
    if things == [] then cfg
    else MakeRecommendable(RegisterAll(cfg, things[..|things| - 1]), things[|things| - 1])
  }

  /** recommends(*things): the user class is set, the ratable classes start empty and each thing is registered. */
  function Recommends(cfg: Config, userClass: string, things: seq<string>): Config {
    RegisterAll(cfg.(ratableClasses := [], userClass := userClass), things)
  }

  /** Registering appends the classes in order and changes nothing else in the configuration. */
  lemma {:induction false} RegisterAllAppends(cfg: Config, things: seq<string>)
    ensures RegisterAll(cfg, things) == cfg.(ratableClasses := cfg.ratableClasses + things)
    decreases |things|
  {
    if things != [] {
      var init := things[..|things| - 1];
      RegisterAllAppends(cfg, init);
      assert cfg.ratableClasses + init + [things[|things| - 1]] == cfg.ratableClasses + things;
    }
  }

  /** After `recommends`, a class is recommendable exactly when it was one of the things named. */
  lemma RecommendsRegisters(cfg: Config, userClass: string, things: seq<string>, klass: string)
    ensures IsRecommendable(Recommends(cfg, userClass, things), klass) <==> klass in things
    ensures Recommends(cfg, userClass, things).userClass == userClass
  {
    RegisterAllAppends(cfg.(ratableClasses := [], userClass := userClass), things);
    assert [] + things == things;
  }

  /** make_recommendable! makes its class recommendable and keeps the others as they were. */
  lemma MakeRecommendableRegisters(cfg: Config, klass: string, other: string)
    ensures IsRecommendable(MakeRecommendable(cfg, klass), other) <==> other == klass || IsRecommendable(cfg, other)
  {
  }

  // ---------------------------------------------------------------------
  // rated? and top
  // ---------------------------------------------------------------------

  /** rated? of an item: somebody likes or dislikes it, by the two SCARDs. */
  function ItemRated(db: Db, it: Item): bool {
    GemdByCount(db, it) > 0 || DisgemdByCount(db, it) > 0
  }

  /** With the reverse index in step, an item is rated exactly when some user has it in a gemd or disgemd set. */
  lemma ItemRatedIff(db: Db, it: Item)
    requires ReverseIndexed(db)
    ensures ItemRated(db, it) <==>
      exists u :: it.id in db.Members(GemdSet(it.klass, u)) || it.id in db.Members(DisgemdSet(it.klass, u))
  {
    if GemdByCount(db, it) > 0 {
      var u :| u in GemdByIds(db, it);
      GemdByIdsExact(db, it, u);
    } else if DisgemdByCount(db, it) > 0 {
      var u :| u in DisgemdByIds(db, it);
      DisgemdByIdsExact(db, it, u);
    }
    if u :| it.id in db.Members(GemdSet(it.klass, u)) || it.id in db.Members(DisgemdSet(it.klass, u)) {
      GemdByIdsExact(db, it, u);
      DisgemdByIdsExact(db, it, u);
    }
  }

  /** top(count): ZREVRANGE of the class's score set from rank 0 to count - 1. */
  function Top(db: Db, klass: string, count: int): seq<string> {
    ZRevRange(db.ZGet(ScoreSet(klass)), 0, count - 1)
  }

  /** For count >= 1, top is the first min(count, zcard) members of the descending ranking. */
  lemma TopPrefix(db: Db, klass: string, count: nat)
    requires count >= 1
    ensures var z := db.ZGet(ScoreSet(klass));
      Top(db, klass, count) == Reverse(Ranked(z))[..if count > |z| then |z| else count]
  {
    RangeFromZero(db.ZGet(ScoreSet(klass)), count);
  }

  /**
   * For count >= 1, top returns min(count, zcard) distinct scored items, in
   * descending score order.
   */
  lemma TopDescending(db: Db, klass: string, count: nat)
    requires count >= 1
    ensures var z := db.ZGet(ScoreSet(klass));
      var t := Top(db, klass, count);
      && |t| == (if count > |z| then |z| else count)
      && Distinct(t)
      && (forall i, j :: 0 <= i < j < |t| ==> t[i] in z && t[j] in z && Before(z, t[j], t[i]))
  {
    var z := db.ZGet(ScoreSet(klass));
    var c := if count > |z| then |z| else count;
    TopPrefix(db, klass, count);
    var v := Reverse(Ranked(z));
    RevRankedDescending(z);
    RankedDistinct(z);
    ReverseKeepsElements(Ranked(z));
    PrefixKeeps(v, c);
  }

  /** Each item top returns outranks every scored item it leaves out. */
  lemma TopDominates(db: Db, klass: string, count: nat)
    requires count >= 1
    ensures var z := db.ZGet(ScoreSet(klass));
      var t := Top(db, klass, count);
      forall k, i :: k in z && k !in t && 0 <= i < |t| ==> t[i] in z && Before(z, k, t[i])
  {
    var z := db.ZGet(ScoreSet(klass));
    TopPrefix(db, klass, count);
    RevPrefixDominates(z, if count > |z| then |z| else count);
  }

  /** A prefix of a distinct listing is distinct. */
  lemma PrefixKeeps(v: seq<string>, c: nat)
    requires c <= |v|
    ensures forall i :: 0 <= i < c ==> v[..c][i] == v[i]
    ensures Distinct(v) ==> Distinct(v[..c])
  {
  }

  /** top(0) asks for ranks 0 to -1, which Redis reads as the whole set: every item, best first. */
  lemma TopZeroIsEverything(db: Db, klass: string)
    ensures Top(db, klass, 0) == Reverse(Ranked(db.ZGet(ScoreSet(klass))))
  {
    RangeFromZero(db.ZGet(ScoreSet(klass)), 0);
    assert Reverse(Ranked(db.ZGet(ScoreSet(klass))))[..|db.ZGet(ScoreSet(klass))|] == Reverse(Ranked(db.ZGet(ScoreSet(klass))));
  }

  method ItemRatedFor(redis: Redis, it: Item) returns (b: bool)
    ensures b == ItemRated(redis.State(), it)
  {
    var likes := GemdByCountFor(redis, it);
    var dislikes := DisgemdByCountFor(redis, it);
    b := likes > 0 || dislikes > 0;
  }

  method TopFor(redis: Redis, klass: string, count: int) returns (ids: seq<string>)
    ensures ids == Top(redis.State(), klass, count)
  {
    ids := redis.ZRevRange(ScoreSet(klass), 0, count - 1);
  }

  // ---------------------------------------------------------------------
  // remove_from_recommendable!
  // ---------------------------------------------------------------------

  /** A user's gemd, disgemd, hidden or bookmarked set for the class: the four KEYS patterns. */
  predicate RatingKeyOf(k: SetKey, klass: string) {
    (k.GemdSet? || k.DisgemdSet? || k.HiddenSet? || k.BookmarkedSet?) && k.klass == klass
  }

  /** A user's recommended set for the class: the fifth KEYS pattern. */
  predicate RecommendedKeyOf(k: ZKey, klass: string) {
    k.RecommendedSet? && k.klass == klass
  }

  /** What the purge leaves of the set `s` stored under `k`. */
  function PurgeSet(k: SetKey, s: set<string>, it: Item): set<string> {
    if k == GemdBySet(it.klass, it.id) || k == DisgemdBySet(it.klass, it.id) then {}
    else if RatingKeyOf(k, it.klass) then s - {it.id}
    else s
  }

  /** What the purge leaves of the sorted set `z` stored under `k`. */
  function PurgeZ(k: ZKey, z: ZSet, it: Item): ZSet {
    if k == ScoreSet(it.klass) || RecommendedKeyOf(k, it.klass) then z - {it.id}
    else z
  }

  /** `after` is `before` with the item purged, key by key. */
  ghost predicate Purged(before: Db, after: Db, it: Item) {
    && (forall k :: after.Members(k) == PurgeSet(k, before.Members(k), it))
    && (forall k :: after.ZGet(k) == PurgeZ(k, before.ZGet(k), it))
  }

  /** SREM of `id` from each of the sets under `keys`, in any order. */
  method SRemEach(redis: Redis, keys: set<SetKey>, id: string)
    modifies redis
    ensures redis.State().zsets == old(redis.State()).zsets
    ensures forall k :: redis.State().Members(k) == if k in keys then old(redis.State()).Members(k) - {id} else old(redis.State()).Members(k)
  {
    var todo := keys;
    while todo != {}
      invariant todo <= keys
      invariant redis.State().zsets == old(redis.State()).zsets
      invariant forall k :: redis.State().Members(k) == if k in keys && k !in todo then old(redis.State()).Members(k) - {id} else old(redis.State()).Members(k)
      decreases todo
    {
      var k :| k in todo;
      redis.SRem(k, id);
      todo := todo - {k};
    }
  }

  /** ZREM of `id` from each of the sorted sets under `keys`, in any order. */
  method ZRemEach(redis: Redis, keys: set<ZKey>, id: string)
    modifies redis
    ensures redis.State().sets == old(redis.State()).sets
    ensures forall k :: redis.State().ZGet(k) == if k in keys then old(redis.State()).ZGet(k) - {id} else old(redis.State()).ZGet(k)
  {
    var todo := keys;
    while todo != {}
      invariant todo <= keys
      invariant redis.State().sets == old(redis.State()).sets
      invariant forall k :: redis.State().ZGet(k) == if k in keys && k !in todo then old(redis.State()).ZGet(k) - {id} else old(redis.State()).ZGet(k)
      decreases todo
    {
      var k :| k in todo;
      redis.ZRem(k, id);
      todo := todo - {k};
    }
  }

  /** The rating sets of the class that exist: the four KEYS scans together. */
  method RatingKeys(redis: Redis, klass: string) returns (sets: set<SetKey>)
    ensures forall k :: k in sets <==> k in redis.State().sets && RatingKeyOf(k, klass)
  {
    var liked := redis.SetKeysWhere((k: SetKey) => k.GemdSet? && k.klass == klass);
    var disliked := redis.SetKeysWhere((k: SetKey) => k.DisgemdSet? && k.klass == klass);
    var hidden := redis.SetKeysWhere((k: SetKey) => k.HiddenSet? && k.klass == klass);
    var bookmarked := redis.SetKeysWhere((k: SetKey) => k.BookmarkedSet? && k.klass == klass);
    sets := liked + disliked + hidden + bookmarked;
  }

  /**
   * remove_from_recommendable!: collect the score set, the two reverse sets
   * and, by KEYS, every rating and recommended set of the class; then SREM
   * and ZREM the item from each and DEL the reverse sets.
   */
  method RemoveFromRecommendable(redis: Redis, it: Item)
    modifies redis
    ensures Purged(old(redis.State()), redis.State(), it)
  {
    ghost var d0 := redis.State();
    var zsets: set<ZKey> := {ScoreSet(it.klass)};
    var keys := [GemdBySet(it.klass, it.id), DisgemdBySet(it.klass, it.id)];
    var sets := RatingKeys(redis, it.klass);
    var recommended := redis.ZKeysWhere(k => RecommendedKeyOf(k, it.klass));
    zsets := zsets + recommended;

    SRemEach(redis, sets, it.id);
    ghost var d1 := redis.State();
    ZRemEach(redis, zsets, it.id);
    ghost var d2 := redis.State();
    redis.Del(keys[0]);
    redis.Del(keys[1]);
    forall k ensures redis.State().Members(k) == PurgeSet(k, d0.Members(k), it) {
      assert d2.Members(k) == d1.Members(k);
      if RatingKeyOf(k, it.klass) && k !in sets {
        assert k !in d0.sets;
      }
    }
    forall k ensures redis.State().ZGet(k) == PurgeZ(k, d0.ZGet(k), it) {
      assert d1.ZGet(k) == d0.ZGet(k);
      if RecommendedKeyOf(k, it.klass) && k !in zsets {
        assert k !in d0.zsets;
      }
    }
  }

  /**
   * After the purge the item is in no rating set and no recommended set of
   * any user, its reverse sets are gone and it has no score.
   */
  lemma PurgedItemGone(before: Db, after: Db, it: Item, u: string)
    requires Purged(before, after, it)
    ensures after.Members(GemdBySet(it.klass, it.id)) == {}
    ensures after.Members(DisgemdBySet(it.klass, it.id)) == {}
    ensures it.id !in after.Members(GemdSet(it.klass, u))
    ensures it.id !in after.Members(DisgemdSet(it.klass, u))
    ensures it.id !in after.Members(HiddenSet(it.klass, u))
    ensures it.id !in after.Members(BookmarkedSet(it.klass, u))
    ensures it.id !in after.ZGet(ScoreSet(it.klass))
    ensures it.id !in after.ZGet(RecommendedSet(it.klass, u))
    ensures !ItemRated(after, it)
  {
    assert after.Members(GemdBySet(it.klass, it.id)) == PurgeSet(GemdBySet(it.klass, it.id), before.Members(GemdBySet(it.klass, it.id)), it);
    assert after.Members(DisgemdBySet(it.klass, it.id)) == PurgeSet(DisgemdBySet(it.klass, it.id), before.Members(DisgemdBySet(it.klass, it.id)), it);
    assert after.Members(GemdSet(it.klass, u)) == PurgeSet(GemdSet(it.klass, u), before.Members(GemdSet(it.klass, u)), it);
    assert after.Members(DisgemdSet(it.klass, u)) == PurgeSet(DisgemdSet(it.klass, u), before.Members(DisgemdSet(it.klass, u)), it);
    assert after.Members(HiddenSet(it.klass, u)) == PurgeSet(HiddenSet(it.klass, u), before.Members(HiddenSet(it.klass, u)), it);
    assert after.Members(BookmarkedSet(it.klass, u)) == PurgeSet(BookmarkedSet(it.klass, u), before.Members(BookmarkedSet(it.klass, u)), it);
    assert after.ZGet(ScoreSet(it.klass)) == PurgeZ(ScoreSet(it.klass), before.ZGet(ScoreSet(it.klass)), it);
    assert after.ZGet(RecommendedSet(it.klass, u)) == PurgeZ(RecommendedSet(it.klass, u), before.ZGet(RecommendedSet(it.klass, u)), it);
  }

  /**
   * The purge changes nothing else: other items keep every membership and
   * score, other classes' sets and every similarity set are untouched.
   */
  lemma PurgedKeepsRest(before: Db, after: Db, it: Item, k: SetKey, z: ZKey, x: string)
    requires Purged(before, after, it)
    ensures x != it.id && k != GemdBySet(it.klass, it.id) && k != DisgemdBySet(it.klass, it.id) ==>
      (x in after.Members(k) <==> x in before.Members(k))
    ensures k.klass != it.klass ==> after.Members(k) == before.Members(k)
    ensures z.SimilaritySet? || z.klass != it.klass ==> after.ZGet(z) == before.ZGet(z)
    ensures x != it.id ==> (x in after.ZGet(z) <==> x in before.ZGet(z))
    ensures x != it.id && x in after.ZGet(z) ==> after.ZGet(z)[x] == before.ZGet(z)[x]
  {
    assert after.Members(k) == PurgeSet(k, before.Members(k), it);
    assert after.ZGet(z) == PurgeZ(z, before.ZGet(z), it);
  }

  /** The purge keeps both sides of the rating index in step, and keeps likes and dislikes exclusive. */
  lemma PurgedKeepsInvariants(before: Db, after: Db, it: Item)
    requires Purged(before, after, it)
    ensures ReverseIndexed(before) ==> ReverseIndexed(after)
    ensures Exclusive(before) ==> Exclusive(after)
  {
    forall c, u, i
      ensures ReverseIndexed(before) ==>
        (i in after.Members(GemdSet(c, u)) <==> u in after.Members(GemdBySet(c, i)))
        && (i in after.Members(DisgemdSet(c, u)) <==> u in after.Members(DisgemdBySet(c, i)))
      ensures Exclusive(before) ==> !(i in after.Members(GemdSet(c, u)) && i in after.Members(DisgemdSet(c, u)))
    {
      assert after.Members(GemdSet(c, u)) == PurgeSet(GemdSet(c, u), before.Members(GemdSet(c, u)), it);
      assert after.Members(DisgemdSet(c, u)) == PurgeSet(DisgemdSet(c, u), before.Members(DisgemdSet(c, u)), it);
      assert after.Members(GemdBySet(c, i)) == PurgeSet(GemdBySet(c, i), before.Members(GemdBySet(c, i)), it);
      assert after.Members(DisgemdBySet(c, i)) == PurgeSet(DisgemdBySet(c, i), before.Members(DisgemdBySet(c, i)), it);
    }
  }
}
