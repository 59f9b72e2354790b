/**
 * The rater's hook wiring. `gem` and `disgem` run a before-hook that drops
 * the opposite rating (or else the hidden mark), the two SADDs, then the
 * after-hooks: the item's score update and `unrecommend`. `unrate` undoes
 * whichever rating there is and the bookmark. The Hider, Bookmarker and
 * Recommender modules (`unhide`, `unbookmark`, `unrecommend`) are modelled
 * by what the hooks need of them: a removal that reports whether anything
 * was there.
 */
module Rater {
  import opened Store
  import opened Configuration
  import opened Gemr
  import opened Disgemr
  import opened Gemable
  import opened Disgemable
  import Calculations
  import Ratable

  /** The result of `gem`/`disgem`: the ArgumentError raised for a class that is not ratable, or the value returned. */
  datatype Reply = ArgumentError | Returned(value: bool)

  // ---------------------------------------------------------------------
  // Hider, Bookmarker and Recommender, as the hooks use them
  // ---------------------------------------------------------------------

  function Hides(db: Db, user: string, it: Item): bool {
    it.id in db.Members(HiddenSet(it.klass, user))
  }

  function Bookmarks(db: Db, user: string, it: Item): bool {
    it.id in db.Members(BookmarkedSet(it.klass, user))
  }

  /** unhide: nil (false) unless hidden; otherwise the SREM and true. */
  function Unhide(db: Db, user: string, it: Item): (bool, Db) {
    if !Hides(db, user, it) then (false, db)
    else (true, db.SRem(HiddenSet(it.klass, user), it.id))
  }

  /** unbookmark: nil (false) unless bookmarked; otherwise the SREM and true. */
  function Unbookmark(db: Db, user: string, it: Item): (bool, Db) {
    if !Bookmarks(db, user, it) then (false, db)
    else (true, db.SRem(BookmarkedSet(it.klass, user), it.id))
  }

  /** unrecommend: the item leaves the user's recommended set for its class. */
  function Unrecommend(db: Db, user: string, it: Item): Db {
    db.ZRem(RecommendedSet(it.klass, user), it.id)
  }

  /** unhide takes the item out of the hidden set, reports whether it was there, and touches nothing else. */
  lemma UnhideMembers(db: Db, user: string, it: Item, k: SetKey)
    ensures var r := Unhide(db, user, it);
      && r.0 == Hides(db, user, it)
      && r.1.zsets == db.zsets
      && r.1.Members(k) == if k == HiddenSet(it.klass, user) then db.Members(k) - {it.id} else db.Members(k)
  {
    if !Hides(db, user, it) {
      assert db.Members(HiddenSet(it.klass, user)) - {it.id} == db.Members(HiddenSet(it.klass, user));
    }
  }

  /** unbookmark takes the item out of the bookmarked set, reports whether it was there, and touches nothing else. */
  lemma UnbookmarkMembers(db: Db, user: string, it: Item, k: SetKey)
    ensures var r := Unbookmark(db, user, it);
      && r.0 == Bookmarks(db, user, it)
      && r.1.zsets == db.zsets
      && r.1.Members(k) == if k == BookmarkedSet(it.klass, user) then db.Members(k) - {it.id} else db.Members(k)
  {
    if !Bookmarks(db, user, it) {
      assert db.Members(BookmarkedSet(it.klass, user)) - {it.id} == db.Members(BookmarkedSet(it.klass, user));
    }
  }

  /** unhide touches no rating set, so it keeps the rating index. */
  lemma UnhideKeepsIndex(db: Db, user: string, it: Item)
    requires ReverseIndexed(db)
    ensures ReverseIndexed(Unhide(db, user, it).1)
  {
    var d := Unhide(db, user, it).1;
    forall c, u, i
      ensures (i in d.Members(GemdSet(c, u)) <==> u in d.Members(GemdBySet(c, i)))
        && (i in d.Members(DisgemdSet(c, u)) <==> u in d.Members(DisgemdBySet(c, i)))
    {
      UnhideMembers(db, user, it, GemdSet(c, u));
      UnhideMembers(db, user, it, GemdBySet(c, i));
      UnhideMembers(db, user, it, DisgemdSet(c, u));
      UnhideMembers(db, user, it, DisgemdBySet(c, i));
    }
  }

  /** Adding a new element to a finite set raises its size by one. */
  lemma CardAddNew(s: set<string>, x: string)
    requires x !in s
    ensures |s + {x}| == |s| + 1
  {
  }

  // ---------------------------------------------------------------------
  // The after-hooks
  // ---------------------------------------------------------------------

  /** The item's score entry is the Wilson score of its current like and dislike counts, whenever it has raters. */
  predicate Rescored(d: Db, cfg: Config, it: Item) {
    var likes := |d.Members(GemdBySet(it.klass, it.id))|;
    var dislikes := |d.Members(DisgemdBySet(it.klass, it.id))|;
    likes + dislikes > 0 ==>
      && it.id in d.ZGet(ScoreSet(it.klass))
      && d.ZGet(ScoreSet(it.klass))[it.id] == cfg.wilson(Calculations.Phat(likes, dislikes), likes + dislikes)
  }

  /** after_gem and after_disgem: update_score_for, then unrecommend, in the order the hooks are registered. */
  function AfterRate(db: Db, cfg: Config, user: string, it: Item): Db {
    Unrecommend(Calculations.UpdateScore(db, cfg, it.klass, it.id).1, user, it)
  }

  /**
   * The after-hooks keep every plain set, rescore the item, drop it from the
   * user's recommendations, and leave every other sorted set alone.
   */
  lemma AfterRateEffect(db: Db, cfg: Config, user: string, it: Item, z: ZKey)
    ensures var d := AfterRate(db, cfg, user, it);
      && d.sets == db.sets
      && Rescored(d, cfg, it)
      && d.ZGet(RecommendedSet(it.klass, user)) == db.ZGet(RecommendedSet(it.klass, user)) - {it.id}
      && (z != ScoreSet(it.klass) && z != RecommendedSet(it.klass, user) ==> d.ZGet(z) == db.ZGet(z))
  {
    var d1 := Calculations.UpdateScore(db, cfg, it.klass, it.id).1;
    Calculations.UpdateScoreGuard(db, cfg, it.klass, it.id);
    Calculations.UpdateScoreFrame(db, cfg, it.klass, it.id, z, it.id);
    Calculations.UpdateScoreFrame(db, cfg, it.klass, it.id, RecommendedSet(it.klass, user), it.id);
    assert AfterRate(db, cfg, user, it).ZGet(ScoreSet(it.klass)) == d1.ZGet(ScoreSet(it.klass));
  }

  /** The score update leaves the item rescored; with no raters it changes nothing. */
  lemma UpdateScoreRescores(db: Db, cfg: Config, it: Item)
    ensures var d := Calculations.UpdateScore(db, cfg, it.klass, it.id).1;
      && Rescored(d, cfg, it)
      && (|d.Members(GemdBySet(it.klass, it.id))| + |d.Members(DisgemdBySet(it.klass, it.id))| == 0 ==> d == db)
  {
    var d := Calculations.UpdateScore(db, cfg, it.klass, it.id).1;
    Calculations.UpdateScoreGuard(db, cfg, it.klass, it.id);
    Calculations.UpdateScoreFrame(db, cfg, it.klass, it.id, ScoreSet(it.klass), it.id);
    assert d.Members(GemdBySet(it.klass, it.id)) == db.Members(GemdBySet(it.klass, it.id));
    assert d.Members(DisgemdBySet(it.klass, it.id)) == db.Members(DisgemdBySet(it.klass, it.id));
  }

  /** ungem recomputes the score: rescored when raters remain, otherwise the score set is left as it was. */
  lemma UngemRescores(db: Db, cfg: Config, user: string, it: Item)
    requires Gems(db, user, it)
    ensures var d := Ungem(db, cfg, user, it).1;
      && Rescored(d, cfg, it)
      && (|d.Members(GemdBySet(it.klass, it.id))| + |d.Members(DisgemdBySet(it.klass, it.id))| == 0 ==>
            d.ZGet(ScoreSet(it.klass)) == db.ZGet(ScoreSet(it.klass)))
  {
    var d0 := RemoveGem(db, user, it);
    assert Ungem(db, cfg, user, it).1 == Calculations.UpdateScore(d0, cfg, it.klass, it.id).1;
    RemoveGemMembers(db, user, it, GemdBySet(it.klass, it.id));
    UpdateScoreRescores(d0, cfg, it);
  }

  /** undisgem recomputes the score: rescored when raters remain, otherwise the score set is left as it was. */
  lemma UndisgemRescores(db: Db, cfg: Config, user: string, it: Item)
    requires Disgems(db, user, it)
    ensures var d := Undisgem(db, cfg, user, it).1;
      && Rescored(d, cfg, it)
      && (|d.Members(GemdBySet(it.klass, it.id))| + |d.Members(DisgemdBySet(it.klass, it.id))| == 0 ==>
            d.ZGet(ScoreSet(it.klass)) == db.ZGet(ScoreSet(it.klass)))
  {
    var d0 := RemoveDisgem(db, user, it);
    assert Undisgem(db, cfg, user, it).1 == Calculations.UpdateScore(d0, cfg, it.klass, it.id).1;
    RemoveDisgemMembers(db, user, it, DisgemdBySet(it.klass, it.id));
    UpdateScoreRescores(d0, cfg, it);
  }

  // ---------------------------------------------------------------------
  // gem
  // ---------------------------------------------------------------------

  /** before_gem: undisgem(obj) || unhide(obj); unhide runs only when undisgem returned nil. */
  function BeforeGem(db: Db, cfg: Config, user: string, it: Item): Db {
    var r := Undisgem(db, cfg, user, it);
    if r.0 then r.1 else Unhide(r.1, user, it).1
  }

  /**
   * gem(obj): ArgumentError for a class that is not ratable; nil (false
   * here) with no change when already gemd; otherwise the before-hook,
   * the two SADDs, the after-hooks, and true.
   */
  function Gem(db: Db, cfg: Config, user: string, it: Item): (Reply, Db) {
    if !Ratable.IsRecommendable(cfg, it.klass) then (ArgumentError, db)
    else if Gems(db, user, it) then (Returned(false), db)
    else (Returned(true), AfterRate(AddGem(BeforeGem(db, cfg, user, it), user, it), cfg, user, it))
  }

  /** gem of an item whose class is not ratable raises ArgumentError and changes nothing. */
  lemma GemNotRatable(db: Db, cfg: Config, user: string, it: Item)
    requires !Ratable.IsRecommendable(cfg, it.klass)
    ensures Gem(db, cfg, user, it) == (ArgumentError, db)
  {
  }

  /** gem of an item already gemd returns nil and changes nothing. */
  lemma GemAlready(db: Db, cfg: Config, user: string, it: Item)
    requires Ratable.IsRecommendable(cfg, it.klass) && Gems(db, user, it)
    ensures Gem(db, cfg, user, it) == (Returned(false), db)
  {
  }

  /**
   * What the before-hook does to each set: when the item was disgemd both
   * disgem memberships go and the hidden mark stays; otherwise only the
   * hidden mark goes. Only the score set among the sorted sets may change.
   */
  lemma BeforeGemMembers(db: Db, cfg: Config, user: string, it: Item, k: SetKey, z: ZKey)
    ensures var d := BeforeGem(db, cfg, user, it);
      var was := Disgems(db, user, it);
      && d.Members(k) ==
        (if was && k == DisgemdSet(it.klass, user) then db.Members(k) - {it.id}
         else if was && k == DisgemdBySet(it.klass, it.id) then db.Members(k) - {user}
         else if !was && k == HiddenSet(it.klass, user) then db.Members(k) - {it.id}
         else db.Members(k))
      && (z != ScoreSet(it.klass) ==> d.ZGet(z) == db.ZGet(z))
  {
    if Disgems(db, user, it) {
      RemoveDisgemMembers(db, user, it, k);
      Calculations.UpdateScoreFrame(RemoveDisgem(db, user, it), cfg, it.klass, it.id, z, it.id);
    } else {
      UnhideMembers(db, user, it, k);
    }
  }

  /** What a successful gem does to each set. */
  lemma GemMembers(db: Db, cfg: Config, user: string, it: Item, k: SetKey)
    requires Ratable.IsRecommendable(cfg, it.klass) && !Gems(db, user, it)
    ensures var d := Gem(db, cfg, user, it).1;
      var was := Disgems(db, user, it);
      d.Members(k) ==
        if k == GemdSet(it.klass, user) then db.Members(k) + {it.id}
        else if k == GemdBySet(it.klass, it.id) then db.Members(k) + {user}
        else if was && k == DisgemdSet(it.klass, user) then db.Members(k) - {it.id}
        else if was && k == DisgemdBySet(it.klass, it.id) then db.Members(k) - {user}
        else if !was && k == HiddenSet(it.klass, user) then db.Members(k) - {it.id}
        else db.Members(k)
  {
    var d1 := BeforeGem(db, cfg, user, it);
    var d2 := AddGem(d1, user, it);
    BeforeGemMembers(db, cfg, user, it, k, ScoreSet(it.klass));
    AddGemMembers(d1, user, it, k);
    AfterRateEffect(d2, cfg, user, it, ScoreSet(it.klass));
  }

  /**
   * What a successful gem does to the sorted sets: the item is rescored,
   * it leaves the user's recommended set, and nothing else changes.
   */
  lemma GemSortedSets(db: Db, cfg: Config, user: string, it: Item, z: ZKey)
    requires Ratable.IsRecommendable(cfg, it.klass) && !Gems(db, user, it)
    ensures var d := Gem(db, cfg, user, it).1;
      && Rescored(d, cfg, it)
      && it.id in d.ZGet(ScoreSet(it.klass))
      && d.ZGet(RecommendedSet(it.klass, user)) == db.ZGet(RecommendedSet(it.klass, user)) - {it.id}
      && (z != ScoreSet(it.klass) && z != RecommendedSet(it.klass, user) ==> d.ZGet(z) == db.ZGet(z))
  {
    GemRescores(db, cfg, user, it);
    GemZFrame(db, cfg, user, it, z);
  }

  /** A successful gem leaves the item scored, with the Wilson score of its new counts. */
  lemma GemRescores(db: Db, cfg: Config, user: string, it: Item)
    requires Ratable.IsRecommendable(cfg, it.klass) && !Gems(db, user, it)
    ensures var d := Gem(db, cfg, user, it).1;
      Rescored(d, cfg, it) && it.id in d.ZGet(ScoreSet(it.klass))
  {
    var d2 := AddGem(BeforeGem(db, cfg, user, it), user, it);
    var d := AfterRate(d2, cfg, user, it);
    AddGemMembers(BeforeGem(db, cfg, user, it), user, it, GemdBySet(it.klass, it.id));
    AfterRateEffect(d2, cfg, user, it, ScoreSet(it.klass));
    var likes := d.Members(GemdBySet(it.klass, it.id));
    assert user in likes;
    assert |likes| > 0;
  }

  /** A successful gem drops the item from the user's recommendations and touches no other sorted set but the scores. */
  lemma GemZFrame(db: Db, cfg: Config, user: string, it: Item, z: ZKey)
    requires Ratable.IsRecommendable(cfg, it.klass) && !Gems(db, user, it)
    ensures var d := Gem(db, cfg, user, it).1;
      && d.ZGet(RecommendedSet(it.klass, user)) == db.ZGet(RecommendedSet(it.klass, user)) - {it.id}
      && (z != ScoreSet(it.klass) && z != RecommendedSet(it.klass, user) ==> d.ZGet(z) == db.ZGet(z))
  {
    var d1 := BeforeGem(db, cfg, user, it);
    var d2 := AddGem(d1, user, it);
    BeforeGemMembers(db, cfg, user, it, GemdBySet(it.klass, it.id), z);
    BeforeGemMembers(db, cfg, user, it, GemdBySet(it.klass, it.id), RecommendedSet(it.klass, user));
    AddGemMembers(d1, user, it, GemdBySet(it.klass, it.id));
    AfterRateEffect(d2, cfg, user, it, z);
  }

  /**
   * After a successful gem the item is in the user's gemd set and the
   * user in its gemd_by set; the item is not disgemd, and with the index
   * in step the user is not in its disgemd_by set either.
   */
  lemma GemRecords(db: Db, cfg: Config, user: string, it: Item)
    requires Ratable.IsRecommendable(cfg, it.klass) && !Gems(db, user, it)
    ensures var r := Gem(db, cfg, user, it);
      && r.0 == Returned(true)
      && Gems(r.1, user, it)
      && user in r.1.Members(GemdBySet(it.klass, it.id))
      && r.1.Members(GemdBySet(it.klass, it.id)) == db.Members(GemdBySet(it.klass, it.id)) + {user}
      && !Disgems(r.1, user, it)
      && (ReverseIndexed(db) ==> user !in r.1.Members(DisgemdBySet(it.klass, it.id)))
  {
    GemMembers(db, cfg, user, it, GemdSet(it.klass, user));
    GemMembers(db, cfg, user, it, GemdBySet(it.klass, it.id));
    GemMembers(db, cfg, user, it, DisgemdSet(it.klass, user));
    GemMembers(db, cfg, user, it, DisgemdBySet(it.klass, it.id));
    if ReverseIndexed(db) {
      assert it.id in db.Members(DisgemdSet(it.klass, user)) <==> user in db.Members(DisgemdBySet(it.klass, it.id));
    }
  }

  /** The before-hook of gem keeps both sides of the like and dislike indexes in step. */
  lemma BeforeGemKeepsIndex(db: Db, cfg: Config, user: string, it: Item)
    requires ReverseIndexed(db)
    ensures ReverseIndexed(BeforeGem(db, cfg, user, it))
  {
    if Disgems(db, user, it) {
      UndisgemKeepsIndex(db, cfg, user, it);
    } else {
      UnhideKeepsIndex(db, user, it);
    }
  }

  /** gem keeps both sides of the like and dislike indexes in step: each of its steps does. */
  lemma GemKeepsIndex(db: Db, cfg: Config, user: string, it: Item)
    requires ReverseIndexed(db)
    ensures ReverseIndexed(Gem(db, cfg, user, it).1)
  {
    if Ratable.IsRecommendable(cfg, it.klass) && !Gems(db, user, it) {
      var d1 := BeforeGem(db, cfg, user, it);
      var d2 := AddGem(d1, user, it);
      BeforeGemKeepsIndex(db, cfg, user, it);
      AddGemKeepsIndex(d1, user, it);
      AfterRateEffect(d2, cfg, user, it, ScoreSet(it.klass));
      InvariantsOfSets(d2, AfterRate(d2, cfg, user, it));
    }
  }

  /** gem keeps likes and dislikes exclusive. */
  lemma GemKeepsExclusive(db: Db, cfg: Config, user: string, it: Item)
    requires Exclusive(db)
    ensures Exclusive(Gem(db, cfg, user, it).1)
  {
    if Ratable.IsRecommendable(cfg, it.klass) && !Gems(db, user, it) {
      var d := Gem(db, cfg, user, it).1;
      forall c, u, i ensures !(i in d.Members(GemdSet(c, u)) && i in d.Members(DisgemdSet(c, u))) {
        GemMembers(db, cfg, user, it, GemdSet(c, u));
        GemMembers(db, cfg, user, it, DisgemdSet(c, u));
      }
    }
  }

  /** The short-circuit: a disgemd item keeps its hidden mark; any other item loses it. */
  lemma GemHidden(db: Db, cfg: Config, user: string, it: Item)
    requires Ratable.IsRecommendable(cfg, it.klass) && !Gems(db, user, it)
    ensures var d := Gem(db, cfg, user, it).1;
      && (Disgems(db, user, it) ==> d.Members(HiddenSet(it.klass, user)) == db.Members(HiddenSet(it.klass, user)))
      && (!Disgems(db, user, it) ==> !Hides(d, user, it))
  {
    GemMembers(db, cfg, user, it, HiddenSet(it.klass, user));
  }

  /** With the index in step, a new gem adds exactly its user to the item's gemd_by ids. */
  lemma GemRaisesCount(db: Db, cfg: Config, user: string, it: Item)
    requires Ratable.IsRecommendable(cfg, it.klass) && GemdIndexed(db) && !Gems(db, user, it)
    ensures var d := Gem(db, cfg, user, it).1;
      && GemdByIds(d, it) == GemdByIds(db, it) + {user}
      && GemdByCount(d, it) == GemdByCount(db, it) + 1
  {
    GemRecords(db, cfg, user, it);
    GemdByIdsExact(db, it, user);
    CardAddNew(GemdByIds(db, it), user);
  }

  /** One gem by a user not among the raters: the count goes up by one and the index stays in step. */
  lemma GemCountStep(db: Db, cfg: Config, user: string, it: Item)
    requires Ratable.IsRecommendable(cfg, it.klass) && ReverseIndexed(db) && user !in GemdByIds(db, it)
    ensures var d := Gem(db, cfg, user, it).1;
      && ReverseIndexed(d)
      && GemdByIds(d, it) == GemdByIds(db, it) + {user}
      && GemdByCount(d, it) == GemdByCount(db, it) + 1
  {
    GemdByIdsExact(db, it, user);
    GemRaisesCount(db, cfg, user, it);
    GemKeepsIndex(db, cfg, user, it);
  }

  /** The first gem of an unrated item: its only gemd_by id is the gemr. */
  lemma GemFirstRater(db: Db, cfg: Config, user: string, it: Item)
    requires Ratable.IsRecommendable(cfg, it.klass) && ReverseIndexed(db) && GemdByCount(db, it) == 0
    ensures var d := Gem(db, cfg, user, it).1;
      && ReverseIndexed(d)
      && GemdByIds(d, it) == {user}
      && GemdByCount(d, it) == 1
  {
    assert GemdByIds(db, it) == {};
    GemCountStep(db, cfg, user, it);
  }

  /** A second user's gem of an item with one gemr takes the count to 2. */
  lemma GemSecondRater(db: Db, cfg: Config, first: string, user: string, it: Item)
    requires Ratable.IsRecommendable(cfg, it.klass) && ReverseIndexed(db)
    requires GemdByIds(db, it) == {first} && first != user
    ensures GemdByCount(Gem(db, cfg, user, it).1, it) == 2
  {
    GemCountStep(db, cfg, user, it);
    CardAddNew({first}, user);
  }

  /** Two different users' gems of an unrated item take its gemd_by count from 0 to 1 to 2. */
  lemma GemCountsUp(db: Db, cfg: Config, u1: string, u2: string, it: Item)
    requires Ratable.IsRecommendable(cfg, it.klass) && ReverseIndexed(db)
    requires GemdByCount(db, it) == 0 && u1 != u2
    ensures var d1 := Gem(db, cfg, u1, it).1;
      && GemdByCount(d1, it) == 1
      && GemdByCount(Gem(d1, cfg, u2, it).1, it) == 2
  {
    GemFirstRater(db, cfg, u1, it);
    GemSecondRater(Gem(db, cfg, u1, it).1, cfg, u1, u2, it);
  }

  /**
   * With likes and dislikes exclusive, gem then disgem of the same item
   * leaves it only disgemd, with the user in its disgemd_by set and out
   * of its gemd_by set.
   */
  lemma GemThenDisgem(db: Db, cfg: Config, user: string, it: Item)
    requires Ratable.IsRecommendable(cfg, it.klass) && Exclusive(db)
    ensures var d := Disgem(Gem(db, cfg, user, it).1, cfg, user, it).1;
      && Disgems(d, user, it)
      && !Gems(d, user, it)
      && user in d.Members(DisgemdBySet(it.klass, it.id))
      && user !in d.Members(GemdBySet(it.klass, it.id))
  {
    var d1 := Gem(db, cfg, user, it).1;
    if !Gems(db, user, it) {
      GemRecords(db, cfg, user, it);
    } else {
      assert !(it.id in db.Members(GemdSet(it.klass, user)) && it.id in db.Members(DisgemdSet(it.klass, user)));
    }
    DisgemMembers(d1, cfg, user, it, GemdSet(it.klass, user));
    DisgemMembers(d1, cfg, user, it, GemdBySet(it.klass, it.id));
    DisgemMembers(d1, cfg, user, it, DisgemdSet(it.klass, user));
    DisgemMembers(d1, cfg, user, it, DisgemdBySet(it.klass, it.id));
  }

  /** The after-hooks of gem and disgem: the score update, then unrecommend. */
  method AfterRateFor(redis: Redis, cfg: Config, user: string, it: Item)
    modifies redis
    ensures redis.State() == AfterRate(old(redis.State()), cfg, user, it)
  {
    var _ := Calculations.UpdateScoreFor(redis, cfg, it.klass, it.id);
    UnrecommendFor(redis, user, it);
  }

  method BeforeGemFor(redis: Redis, cfg: Config, user: string, it: Item)
    modifies redis
    ensures redis.State() == BeforeGem(old(redis.State()), cfg, user, it)
  {
    var done := UndisgemFor(redis, cfg, user, it);
    if !done {
      var _ := UnhideFor(redis, user, it);
    }
  }

  /** gem over the store: the guards, the before-hook, the two SADDs and the after-hooks. */
  method GemFor(redis: Redis, cfg: Config, user: string, it: Item) returns (reply: Reply)
    modifies redis
    ensures (reply, redis.State()) == Gem(old(redis.State()), cfg, user, it)
  {
    if it.klass !in cfg.ratableClasses {
      return ArgumentError;
    }
    var already := GemsFor(redis, user, it);
    if already {
      return Returned(false);
    }
    BeforeGemFor(redis, cfg, user, it);
    redis.SAdd(GemdSet(it.klass, user), it.id);
    redis.SAdd(GemdBySet(it.klass, it.id), user);
    AfterRateFor(redis, cfg, user, it);
    reply := Returned(true);
  }

  // ---------------------------------------------------------------------
  // disgem
  // ---------------------------------------------------------------------

  /** before_disgem: ungem(obj) || unhide(obj); unhide runs only when ungem returned nil. */
  function BeforeDisgem(db: Db, cfg: Config, user: string, it: Item): Db {
    var r := Ungem(db, cfg, user, it);
    if r.0 then r.1 else Unhide(r.1, user, it).1
  }

  /**
   * disgem(obj): ArgumentError for a class that is not ratable; nil (false
   * here) with no change when already disgemd; otherwise the before-hook,
   * the two SADDs, the after-hooks, and true.
   */
  function Disgem(db: Db, cfg: Config, user: string, it: Item): (Reply, Db) {
    if !Ratable.IsRecommendable(cfg, it.klass) then (ArgumentError, db)
    else if Disgems(db, user, it) then (Returned(false), db)
    else (Returned(true), AfterRate(AddDisgem(BeforeDisgem(db, cfg, user, it), user, it), cfg, user, it))
  }

  /** disgem of an item whose class is not ratable raises ArgumentError and changes nothing. */
  lemma DisgemNotRatable(db: Db, cfg: Config, user: string, it: Item)
    requires !Ratable.IsRecommendable(cfg, it.klass)
    ensures Disgem(db, cfg, user, it) == (ArgumentError, db)
  {
  }

  /** disgem of an item already disgemd returns nil and changes nothing. */
  lemma DisgemAlready(db: Db, cfg: Config, user: string, it: Item)
    requires Ratable.IsRecommendable(cfg, it.klass) && Disgems(db, user, it)
    ensures Disgem(db, cfg, user, it) == (Returned(false), db)
  {
  }

  /**
   * What the before-hook does to each set: when the item was gemd both
   * gem memberships go and the hidden mark stays; otherwise only the
   * hidden mark goes. Only the score set among the sorted sets may change.
   */
  lemma BeforeDisgemMembers(db: Db, cfg: Config, user: string, it: Item, k: SetKey, z: ZKey)
    ensures var d := BeforeDisgem(db, cfg, user, it);
      var was := Gems(db, user, it);
      && d.Members(k) ==
        (if was && k == GemdSet(it.klass, user) then db.Members(k) - {it.id}
         else if was && k == GemdBySet(it.klass, it.id) then db.Members(k) - {user}
         else if !was && k == HiddenSet(it.klass, user) then db.Members(k) - {it.id}
         else db.Members(k))
      && (z != ScoreSet(it.klass) ==> d.ZGet(z) == db.ZGet(z))
  {
    if Gems(db, user, it) {
      RemoveGemMembers(db, user, it, k);
      Calculations.UpdateScoreFrame(RemoveGem(db, user, it), cfg, it.klass, it.id, z, it.id);
    } else {
      UnhideMembers(db, user, it, k);
    }
  }

  /** What a successful disgem does to each set. */
  lemma DisgemMembers(db: Db, cfg: Config, user: string, it: Item, k: SetKey)
    requires Ratable.IsRecommendable(cfg, it.klass) && !Disgems(db, user, it)
    ensures var d := Disgem(db, cfg, user, it).1;
      var was := Gems(db, user, it);
      d.Members(k) ==
        if k == DisgemdSet(it.klass, user) then db.Members(k) + {it.id}
        else if k == DisgemdBySet(it.klass, it.id) then db.Members(k) + {user}
        else if was && k == GemdSet(it.klass, user) then db.Members(k) - {it.id}
        else if was && k == GemdBySet(it.klass, it.id) then db.Members(k) - {user}
        else if !was && k == HiddenSet(it.klass, user) then db.Members(k) - {it.id}
        else db.Members(k)
  {
    var d1 := BeforeDisgem(db, cfg, user, it);
    var d2 := AddDisgem(d1, user, it);
    BeforeDisgemMembers(db, cfg, user, it, k, ScoreSet(it.klass));
    AddDisgemMembers(d1, user, it, k);
    AfterRateEffect(d2, cfg, user, it, ScoreSet(it.klass));
  }

  /**
   * What a successful disgem does to the sorted sets: the item is rescored,
   * it leaves the user's recommended set, and nothing else changes.
   */
  lemma DisgemSortedSets(db: Db, cfg: Config, user: string, it: Item, z: ZKey)
    requires Ratable.IsRecommendable(cfg, it.klass) && !Disgems(db, user, it)
    ensures var d := Disgem(db, cfg, user, it).1;
      && Rescored(d, cfg, it)
      && it.id in d.ZGet(ScoreSet(it.klass))
      && d.ZGet(RecommendedSet(it.klass, user)) == db.ZGet(RecommendedSet(it.klass, user)) - {it.id}
      && (z != ScoreSet(it.klass) && z != RecommendedSet(it.klass, user) ==> d.ZGet(z) == db.ZGet(z))
  {
    DisgemRescores(db, cfg, user, it);
    DisgemZFrame(db, cfg, user, it, z);
  }

  /** A successful disgem leaves the item scored, with the Wilson score of its new counts. */
  lemma DisgemRescores(db: Db, cfg: Config, user: string, it: Item)
    requires Ratable.IsRecommendable(cfg, it.klass) && !Disgems(db, user, it)
    ensures var d := Disgem(db, cfg, user, it).1;
      Rescored(d, cfg, it) && it.id in d.ZGet(ScoreSet(it.klass))
  {
    var d2 := AddDisgem(BeforeDisgem(db, cfg, user, it), user, it);
    var d := AfterRate(d2, cfg, user, it);
    AddDisgemMembers(BeforeDisgem(db, cfg, user, it), user, it, DisgemdBySet(it.klass, it.id));
    AfterRateEffect(d2, cfg, user, it, ScoreSet(it.klass));
    var likes := d.Members(DisgemdBySet(it.klass, it.id));
    assert user in likes;
    assert |likes| > 0;
  }

  /** A successful disgem drops the item from the user's recommendations and touches no other sorted set but the scores. */
  lemma DisgemZFrame(db: Db, cfg: Config, user: string, it: Item, z: ZKey)
    requires Ratable.IsRecommendable(cfg, it.klass) && !Disgems(db, user, it)
    ensures var d := Disgem(db, cfg, user, it).1;
      && d.ZGet(RecommendedSet(it.klass, user)) == db.ZGet(RecommendedSet(it.klass, user)) - {it.id}
      && (z != ScoreSet(it.klass) && z != RecommendedSet(it.klass, user) ==> d.ZGet(z) == db.ZGet(z))
  {
    var d1 := BeforeDisgem(db, cfg, user, it);
    var d2 := AddDisgem(d1, user, it);
    BeforeDisgemMembers(db, cfg, user, it, DisgemdBySet(it.klass, it.id), z);
    BeforeDisgemMembers(db, cfg, user, it, DisgemdBySet(it.klass, it.id), RecommendedSet(it.klass, user));
    AddDisgemMembers(d1, user, it, DisgemdBySet(it.klass, it.id));
    AfterRateEffect(d2, cfg, user, it, z);
  }

  /**
   * After a successful disgem the item is in the user's disgemd set and the
   * user in its disgemd_by set; the item is not gemd, and with the index
   * in step the user is not in its gemd_by set either.
   */
  lemma DisgemRecords(db: Db, cfg: Config, user: string, it: Item)
    requires Ratable.IsRecommendable(cfg, it.klass) && !Disgems(db, user, it)
    ensures var r := Disgem(db, cfg, user, it);
      && r.0 == Returned(true)
      && Disgems(r.1, user, it)
      && user in r.1.Members(DisgemdBySet(it.klass, it.id))
      && r.1.Members(DisgemdBySet(it.klass, it.id)) == db.Members(DisgemdBySet(it.klass, it.id)) + {user}
      && !Gems(r.1, user, it)
      && (ReverseIndexed(db) ==> user !in r.1.Members(GemdBySet(it.klass, it.id)))
  {
    DisgemMembers(db, cfg, user, it, DisgemdSet(it.klass, user));
    DisgemMembers(db, cfg, user, it, DisgemdBySet(it.klass, it.id));
    DisgemMembers(db, cfg, user, it, GemdSet(it.klass, user));
    DisgemMembers(db, cfg, user, it, GemdBySet(it.klass, it.id));
    if ReverseIndexed(db) {
      assert it.id in db.Members(GemdSet(it.klass, user)) <==> user in db.Members(GemdBySet(it.klass, it.id));
    }
  }

  /** The before-hook of disgem keeps both sides of the like and dislike indexes in step. */
  lemma BeforeDisgemKeepsIndex(db: Db, cfg: Config, user: string, it: Item)
    requires ReverseIndexed(db)
    ensures ReverseIndexed(BeforeDisgem(db, cfg, user, it))
  {
    if Gems(db, user, it) {
      UngemKeepsIndex(db, cfg, user, it);
    } else {
      UnhideKeepsIndex(db, user, it);
    }
  }

  /** disgem keeps both sides of the like and dislike indexes in step: each of its steps does. */
  lemma DisgemKeepsIndex(db: Db, cfg: Config, user: string, it: Item)
    requires ReverseIndexed(db)
    ensures ReverseIndexed(Disgem(db, cfg, user, it).1)
  {
    if Ratable.IsRecommendable(cfg, it.klass) && !Disgems(db, user, it) {
      var d1 := BeforeDisgem(db, cfg, user, it);
      var d2 := AddDisgem(d1, user, it);
      BeforeDisgemKeepsIndex(db, cfg, user, it);
      AddDisgemKeepsIndex(d1, user, it);
      AfterRateEffect(d2, cfg, user, it, ScoreSet(it.klass));
      InvariantsOfSets(d2, AfterRate(d2, cfg, user, it));
    }
  }

  /** disgem keeps likes and dislikes exclusive. */
  lemma DisgemKeepsExclusive(db: Db, cfg: Config, user: string, it: Item)
    requires Exclusive(db)
    ensures Exclusive(Disgem(db, cfg, user, it).1)
  {
    if Ratable.IsRecommendable(cfg, it.klass) && !Disgems(db, user, it) {
      var d := Disgem(db, cfg, user, it).1;
      forall c, u, i ensures !(i in d.Members(GemdSet(c, u)) && i in d.Members(DisgemdSet(c, u))) {
        DisgemMembers(db, cfg, user, it, GemdSet(c, u));
        DisgemMembers(db, cfg, user, it, DisgemdSet(c, u));
      }
    }
  }

  /** The short-circuit: a gemd item keeps its hidden mark; any other item loses it. */
  lemma DisgemHidden(db: Db, cfg: Config, user: string, it: Item)
    requires Ratable.IsRecommendable(cfg, it.klass) && !Disgems(db, user, it)
    ensures var d := Disgem(db, cfg, user, it).1;
      && (Gems(db, user, it) ==> d.Members(HiddenSet(it.klass, user)) == db.Members(HiddenSet(it.klass, user)))
      && (!Gems(db, user, it) ==> !Hides(d, user, it))
  {
    DisgemMembers(db, cfg, user, it, HiddenSet(it.klass, user));
  }

  /** With the index in step, a new disgem adds exactly its user to the item's disgemd_by ids. */
  lemma DisgemRaisesCount(db: Db, cfg: Config, user: string, it: Item)
    requires Ratable.IsRecommendable(cfg, it.klass) && DisgemdIndexed(db) && !Disgems(db, user, it)
    ensures var d := Disgem(db, cfg, user, it).1;
      && DisgemdByIds(d, it) == DisgemdByIds(db, it) + {user}
      && DisgemdByCount(d, it) == DisgemdByCount(db, it) + 1
  {
    DisgemRecords(db, cfg, user, it);
    DisgemdByIdsExact(db, it, user);
    CardAddNew(DisgemdByIds(db, it), user);
  }

  /** One disgem by a user not among the raters: the count goes up by one and the index stays in step. */
  lemma DisgemCountStep(db: Db, cfg: Config, user: string, it: Item)
    requires Ratable.IsRecommendable(cfg, it.klass) && ReverseIndexed(db) && user !in DisgemdByIds(db, it)
    ensures var d := Disgem(db, cfg, user, it).1;
      && ReverseIndexed(d)
      && DisgemdByIds(d, it) == DisgemdByIds(db, it) + {user}
      && DisgemdByCount(d, it) == DisgemdByCount(db, it) + 1
  {
    DisgemdByIdsExact(db, it, user);
    DisgemRaisesCount(db, cfg, user, it);
    DisgemKeepsIndex(db, cfg, user, it);
  }

  /** The first disgem of an unrated item: its only disgemd_by id is the disgemr. */
  lemma DisgemFirstRater(db: Db, cfg: Config, user: string, it: Item)
    requires Ratable.IsRecommendable(cfg, it.klass) && ReverseIndexed(db) && DisgemdByCount(db, it) == 0
    ensures var d := Disgem(db, cfg, user, it).1;
      && ReverseIndexed(d)
      && DisgemdByIds(d, it) == {user}
      && DisgemdByCount(d, it) == 1
  {
    assert DisgemdByIds(db, it) == {};
    DisgemCountStep(db, cfg, user, it);
  }

  /** A second user's disgem of an item with one disgemr takes the count to 2. */
  lemma DisgemSecondRater(db: Db, cfg: Config, first: string, user: string, it: Item)
    requires Ratable.IsRecommendable(cfg, it.klass) && ReverseIndexed(db)
    requires DisgemdByIds(db, it) == {first} && first != user
    ensures DisgemdByCount(Disgem(db, cfg, user, it).1, it) == 2
  {
    DisgemCountStep(db, cfg, user, it);
    CardAddNew({first}, user);
  }

  /** Two different users' disgems of an unrated item take its disgemd_by count from 0 to 1 to 2. */
  lemma DisgemCountsUp(db: Db, cfg: Config, u1: string, u2: string, it: Item)
    requires Ratable.IsRecommendable(cfg, it.klass) && ReverseIndexed(db)
    requires DisgemdByCount(db, it) == 0 && u1 != u2
    ensures var d1 := Disgem(db, cfg, u1, it).1;
      && DisgemdByCount(d1, it) == 1
      && DisgemdByCount(Disgem(d1, cfg, u2, it).1, it) == 2
  {
    DisgemFirstRater(db, cfg, u1, it);
    DisgemSecondRater(Disgem(db, cfg, u1, it).1, cfg, u1, u2, it);
  }

  /**
   * With likes and dislikes exclusive, disgem then gem of the same item
   * leaves it only gemd, with the user in its gemd_by set and out
   * of its disgemd_by set.
   */
  lemma DisgemThenGem(db: Db, cfg: Config, user: string, it: Item)
    requires Ratable.IsRecommendable(cfg, it.klass) && Exclusive(db)
    ensures var d := Gem(Disgem(db, cfg, user, it).1, cfg, user, it).1;
      && Gems(d, user, it)
      && !Disgems(d, user, it)
      && user in d.Members(GemdBySet(it.klass, it.id))
      && user !in d.Members(DisgemdBySet(it.klass, it.id))
  {
    var d1 := Disgem(db, cfg, user, it).1;
    if !Disgems(db, user, it) {
      DisgemRecords(db, cfg, user, it);
    } else {
      assert !(it.id in db.Members(GemdSet(it.klass, user)) && it.id in db.Members(DisgemdSet(it.klass, user)));
    }
    GemMembers(d1, cfg, user, it, DisgemdSet(it.klass, user));
    GemMembers(d1, cfg, user, it, DisgemdBySet(it.klass, it.id));
    GemMembers(d1, cfg, user, it, GemdSet(it.klass, user));
    GemMembers(d1, cfg, user, it, GemdBySet(it.klass, it.id));
  }

  method BeforeDisgemFor(redis: Redis, cfg: Config, user: string, it: Item)
    modifies redis
    ensures redis.State() == BeforeDisgem(old(redis.State()), cfg, user, it)
  {
    var done := UngemFor(redis, cfg, user, it);
    if !done {
      var _ := UnhideFor(redis, user, it);
    }
  }

  /** disgem over the store: the guards, the before-hook, the two SADDs and the after-hooks. */
  method DisgemFor(redis: Redis, cfg: Config, user: string, it: Item) returns (reply: Reply)
    modifies redis
    ensures (reply, redis.State()) == Disgem(old(redis.State()), cfg, user, it)
  {
    if it.klass !in cfg.ratableClasses {
      return ArgumentError;
    }
    var already := DisgemsFor(redis, user, it);
    if already {
      return Returned(false);
    }
    BeforeDisgemFor(redis, cfg, user, it);
    redis.SAdd(DisgemdSet(it.klass, user), it.id);
    redis.SAdd(DisgemdBySet(it.klass, it.id), user);
    AfterRateFor(redis, cfg, user, it);
    reply := Returned(true);
  }

  // ---------------------------------------------------------------------
  // rated?, rated_anything? and unrate
  // ---------------------------------------------------------------------

  /** rated?(obj): gems?(obj) || disgems?(obj). */
  function Rated(db: Db, user: string, it: Item): bool {
    Gems(db, user, it) || Disgems(db, user, it)
  }

  /** rated_anything?: gems_count > 0 || disgems_count > 0. */
  function RatedAnything(db: Db, classes: seq<string>, user: string): bool {
    GemsCount(db, classes, user) > 0 || DisgemsCount(db, classes, user) > 0
  }

  /** rated_anything? holds exactly when the user likes or dislikes something in one of the classes. */
  lemma RatedAnythingIff(db: Db, classes: seq<string>, user: string)
    ensures RatedAnything(db, classes, user) <==>
      exists i :: 0 <= i < |classes| && (GemdCount(db, classes[i], user) > 0 || DisgemdCount(db, classes[i], user) > 0)
  {
    GemsCountPositive(db, classes, user);
    DisgemsCountPositive(db, classes, user);
  }

  /** The first half of unrate: ungem(obj) || undisgem(obj) || unhide(obj). */
  function UnrateRating(db: Db, cfg: Config, user: string, it: Item): Db {
    var g := Ungem(db, cfg, user, it);
    if g.0 then g.1
    else
      var b := Undisgem(g.1, cfg, user, it);
      if b.0 then b.1 else Unhide(b.1, user, it).1
  }

  /** unrate(obj): the rating half, then unbookmark(obj), whose result is returned. */
  function Unrate(db: Db, cfg: Config, user: string, it: Item): (bool, Db) {
    Unbookmark(UnrateRating(db, cfg, user, it), user, it)
  }

  /**
   * What the rating half of unrate does to each set: the like goes if there
   * was one, else the dislike if there was one, else the hidden mark.
   */
  lemma UnrateRatingMembers(db: Db, cfg: Config, user: string, it: Item, k: SetKey)
    ensures var d := UnrateRating(db, cfg, user, it);
      var g := Gems(db, user, it);
      var b := Disgems(db, user, it);
      d.Members(k) ==
        if g && k == GemdSet(it.klass, user) then db.Members(k) - {it.id}
        else if g && k == GemdBySet(it.klass, it.id) then db.Members(k) - {user}
        else if !g && b && k == DisgemdSet(it.klass, user) then db.Members(k) - {it.id}
        else if !g && b && k == DisgemdBySet(it.klass, it.id) then db.Members(k) - {user}
        else if !g && !b && k == HiddenSet(it.klass, user) then db.Members(k) - {it.id}
        else db.Members(k)
  {
    if Gems(db, user, it) {
      RemoveGemMembers(db, user, it, k);
      Calculations.UpdateScoreFrame(RemoveGem(db, user, it), cfg, it.klass, it.id, ScoreSet(it.klass), it.id);
    } else if Disgems(db, user, it) {
      RemoveDisgemMembers(db, user, it, k);
      Calculations.UpdateScoreFrame(RemoveDisgem(db, user, it), cfg, it.klass, it.id, ScoreSet(it.klass), it.id);
    } else {
      UnhideMembers(db, user, it, k);
    }
  }

  /**
   * What unrate does to each set: the like goes if there was one, else the
   * dislike if there was one, else the hidden mark; the bookmark always goes.
   */
  lemma UnrateMembers(db: Db, cfg: Config, user: string, it: Item, k: SetKey)
    ensures var r := Unrate(db, cfg, user, it);
      var g := Gems(db, user, it);
      var b := Disgems(db, user, it);
      && r.0 == Bookmarks(db, user, it)
      && r.1.Members(k) ==
        if g && k == GemdSet(it.klass, user) then db.Members(k) - {it.id}
        else if g && k == GemdBySet(it.klass, it.id) then db.Members(k) - {user}
        else if !g && b && k == DisgemdSet(it.klass, user) then db.Members(k) - {it.id}
        else if !g && b && k == DisgemdBySet(it.klass, it.id) then db.Members(k) - {user}
        else if !g && !b && k == HiddenSet(it.klass, user) then db.Members(k) - {it.id}
        else if k == BookmarkedSet(it.klass, user) then db.Members(k) - {it.id}
        else db.Members(k)
  {
    var d := UnrateRating(db, cfg, user, it);
    UnrateRatingMembers(db, cfg, user, it, k);
    UnrateRatingMembers(db, cfg, user, it, BookmarkedSet(it.klass, user));
    UnbookmarkMembers(d, user, it, k);
  }

  /**
   * With likes and dislikes exclusive, after unrate the item is neither liked
   * nor disliked nor bookmarked, and the result says whether it was bookmarked.
   */
  lemma UnrateClears(db: Db, cfg: Config, user: string, it: Item)
    requires Exclusive(db)
    ensures var r := Unrate(db, cfg, user, it);
      && r.0 == Bookmarks(db, user, it)
      && !Gems(r.1, user, it)
      && !Disgems(r.1, user, it)
      && !Bookmarks(r.1, user, it)
  {
    UnrateMembers(db, cfg, user, it, GemdSet(it.klass, user));
    UnrateMembers(db, cfg, user, it, DisgemdSet(it.klass, user));
    UnrateMembers(db, cfg, user, it, BookmarkedSet(it.klass, user));
    assert !(it.id in db.Members(GemdSet(it.klass, user)) && it.id in db.Members(DisgemdSet(it.klass, user)));
  }

  /**
   * The short-circuit of unrate: a rated item keeps its hidden mark, an
   * unrated one loses it; an item both liked and disliked stays disliked.
   */
  lemma UnrateShortCircuit(db: Db, cfg: Config, user: string, it: Item)
    ensures var d := Unrate(db, cfg, user, it).1;
      && (Rated(db, user, it) ==> d.Members(HiddenSet(it.klass, user)) == db.Members(HiddenSet(it.klass, user)))
      && (!Rated(db, user, it) ==> !Hides(d, user, it))
      && (Gems(db, user, it) && Disgems(db, user, it) ==> Disgems(d, user, it) && !Gems(d, user, it))
  {
    UnrateMembers(db, cfg, user, it, HiddenSet(it.klass, user));
    UnrateMembers(db, cfg, user, it, GemdSet(it.klass, user));
    UnrateMembers(db, cfg, user, it, DisgemdSet(it.klass, user));
  }

  /** unrate keeps both sides of the like and dislike indexes in step. */
  lemma UnrateKeepsIndex(db: Db, cfg: Config, user: string, it: Item)
    requires ReverseIndexed(db)
    ensures ReverseIndexed(Unrate(db, cfg, user, it).1)
  {
    var d := Unrate(db, cfg, user, it).1;
    forall c, u, i ensures i in d.Members(GemdSet(c, u)) <==> u in d.Members(GemdBySet(c, i)) {
      UnrateMembers(db, cfg, user, it, GemdSet(c, u));
      UnrateMembers(db, cfg, user, it, GemdBySet(c, i));
    }
    forall c, u, i ensures i in d.Members(DisgemdSet(c, u)) <==> u in d.Members(DisgemdBySet(c, i)) {
      UnrateMembers(db, cfg, user, it, DisgemdSet(c, u));
      UnrateMembers(db, cfg, user, it, DisgemdBySet(c, i));
    }
  }

  method UnhideFor(redis: Redis, user: string, it: Item) returns (ok: bool)
    modifies redis
    ensures (ok, redis.State()) == Unhide(old(redis.State()), user, it)
  {
    var hides := redis.SIsMember(HiddenSet(it.klass, user), it.id);
    if !hides {
      return false;
    }
    redis.SRem(HiddenSet(it.klass, user), it.id);
    ok := true;
  }

  method UnbookmarkFor(redis: Redis, user: string, it: Item) returns (ok: bool)
    modifies redis
    ensures (ok, redis.State()) == Unbookmark(old(redis.State()), user, it)
  {
    var marked := redis.SIsMember(BookmarkedSet(it.klass, user), it.id);
    if !marked {
      return false;
    }
    redis.SRem(BookmarkedSet(it.klass, user), it.id);
    ok := true;
  }

  method UnrecommendFor(redis: Redis, user: string, it: Item)
    modifies redis
    ensures redis.State() == Unrecommend(old(redis.State()), user, it)
  {
    redis.ZRem(RecommendedSet(it.klass, user), it.id);
  }

  method RatedFor(redis: Redis, user: string, it: Item) returns (b: bool)
    ensures b == Rated(redis.State(), user, it)
  {
    b := GemsFor(redis, user, it);
    if !b {
      b := DisgemsFor(redis, user, it);
    }
  }

  method RatedAnythingFor(redis: Redis, classes: seq<string>, user: string) returns (b: bool)
    ensures b == RatedAnything(redis.State(), classes, user)
  {
    var likes := GemsCountFor(redis, classes, user);
    b := likes > 0;
    if !b {
      var dislikes := DisgemsCountFor(redis, classes, user);
      b := dislikes > 0;
    }
  }

  /** unrate over the store. */
  method UnrateFor(redis: Redis, cfg: Config, user: string, it: Item) returns (ok: bool)
    modifies redis
    ensures (ok, redis.State()) == Unrate(old(redis.State()), cfg, user, it)
  {
    var done := UngemFor(redis, cfg, user, it);
    if !done {
      done := UndisgemFor(redis, cfg, user, it);
      if !done {
        var _ := UnhideFor(redis, user, it);
      }
    }
    ok := UnbookmarkFor(redis, user, it);
  }
}
