/**
 * The recommendation arithmetic: user-to-user similarity, the neighbour
 * update, predictions, the materialised recommendations and the per-item
 * score. Each operation that writes to Redis is a method on `Redis` whose
 * contract equates the new state with a function of the old one; the
 * properties are lemmas about those functions.
 */
module Calculations {
  import opened Wrappers
  import opened SortedSet
  import opened Store
  import opened Configuration

  lemma IntersectionCard(a: set<string>, b: set<string>)
    ensures |a * b| <= |a|
  {
    var c := a * b;
    assert a == c + (a - c);
    assert c * (a - c) == {};
  }

  lemma RatioOfSelf(n: int)
    requires n > 0
    ensures n as real / n as real == 1.0 && (-n) as real / n as real == -1.0
  {
  }

  lemma RatioBounds(x: int, n: int)
    requires n > 0 && -n <= x <= n
    ensures -1.0 <= x as real / n as real <= 1.0
  {
  }

  // ---------------------------------------------------------------------
  // similarity_between
  // ---------------------------------------------------------------------

  /** The running totals of the loop over the ratable classes. */
  datatype Tally = Tally(similarity: int, gemdCount: nat, disgemdCount: nat)

  /**
   * What one class adds: agreements (both like, both dislike) minus
   * disagreements, and the first user's numbers of likes and dislikes.
   */
  function ClassTally(db: Db, klass: string, user: string, other: string): (t: Tally)
    ensures t.gemdCount == |db.Members(GemdSet(klass, user))| && t.disgemdCount == |db.Members(DisgemdSet(klass, user))|
    ensures -(t.gemdCount + t.disgemdCount) <= t.similarity <= t.gemdCount + t.disgemdCount
  {
    TallyOf(db.Members(GemdSet(klass, user)), db.Members(DisgemdSet(klass, user)),
      db.Members(GemdSet(klass, other)), db.Members(DisgemdSet(klass, other)))
  }

  /** The tally of one class from the user's liked and disliked sets `g`, `d` and the other user's `og`, `od`. */
  function TallyOf(g: set<string>, d: set<string>, og: set<string>, od: set<string>): (t: Tally)
    ensures t.gemdCount == |g| && t.disgemdCount == |d|
    ensures -(t.gemdCount + t.disgemdCount) <= t.similarity <= t.gemdCount + t.disgemdCount
  {
    IntersectionCard(g, og);
    IntersectionCard(d, od);
    IntersectionCard(g, od);
    IntersectionCard(d, og);
    Tally(|g * og| + |d * od| - |g * od| - |d * og|, |g|, |d|)
  }

  function Plus(a: Tally, b: Tally): Tally {
    Tally(a.similarity + b.similarity, a.gemdCount + b.gemdCount, a.disgemdCount + b.disgemdCount)
  }

  /** The number of items the user rated in the given classes: the similarity denominator. */
  function RatedCount(db: Db, classes: seq<string>, user: string): nat
    decreases |classes|
  {
    if |classes| == 0 then 0
    else
      var klass := classes[|classes| - 1];
      RatedCount(db, classes[..|classes| - 1], user) + |db.Members(GemdSet(klass, user))| + |db.Members(DisgemdSet(klass, user))|
  }

  /**
   * The totals after the loop has run over `classes`. The similarity never
   * exceeds the denominator in absolute value.
   */
  function Tallied(db: Db, classes: seq<string>, user: string, other: string): (t: Tally)
    ensures t.gemdCount + t.disgemdCount == RatedCount(db, classes, user)
    ensures -(t.gemdCount + t.disgemdCount) <= t.similarity <= t.gemdCount + t.disgemdCount
    decreases |classes|
  {
    if |classes| == 0 then Tally(0, 0, 0)
    else Plus(Tallied(db, classes[..|classes| - 1], user, other), ClassTally(db, classes[|classes| - 1], user, other))
  }

  /**
   * similarity_between(user, other): the tally divided by the number of
   * ratings of the first user, which must be positive (otherwise the source
   * divides by zero).
   */
  function Similarity(db: Db, classes: seq<string>, user: string, other: string): (s: real)
    requires RatedCount(db, classes, user) > 0
    ensures -1.0 <= s <= 1.0
  {
    var t := Tallied(db, classes, user, other);
    RatioBounds(t.similarity, t.gemdCount + t.disgemdCount);
    t.similarity as real / (t.gemdCount + t.disgemdCount) as real
  }

  /** One more class adds its own tally. */
  lemma TalliedStep(db: Db, classes: seq<string>, i: int, user: string, other: string)
    requires 0 <= i < |classes|
    ensures Tallied(db, classes[..i + 1], user, other) == Plus(Tallied(db, classes[..i], user, other), ClassTally(db, classes[i], user, other))
  {
    assert classes[..i + 1][..i] == classes[..i];
  }

  /** The tally reads only the plain sets. */
  lemma {:induction false} TalliedFrame(d1: Db, d2: Db, classes: seq<string>, user: string, other: string)
    requires d1.sets == d2.sets
    ensures Tallied(d1, classes, user, other) == Tallied(d2, classes, user, other)
    ensures RatedCount(d1, classes, user) == RatedCount(d2, classes, user)
    decreases |classes|
  {
    if |classes| > 0 {
      TalliedFrame(d1, d2, classes[..|classes| - 1], user, other);
      ClassTallyFrame(d1, d2, classes[|classes| - 1], user, other);
    }
  }

  lemma ClassTallyFrame(d1: Db, d2: Db, klass: string, user: string, other: string)
    requires d1.sets == d2.sets
    ensures ClassTally(d1, klass, user, other) == ClassTally(d2, klass, user, other)
    ensures d1.Members(GemdSet(klass, user)) == d2.Members(GemdSet(klass, user))
    ensures d1.Members(DisgemdSet(klass, user)) == d2.Members(DisgemdSet(klass, user))
  {
    assert d1.Members(GemdSet(klass, other)) == d2.Members(GemdSet(klass, other));
    assert d1.Members(DisgemdSet(klass, other)) == d2.Members(DisgemdSet(klass, other));
    assert d1.Members(GemdSet(klass, user)) == d2.Members(GemdSet(klass, user));
    assert d1.Members(DisgemdSet(klass, user)) == d2.Members(DisgemdSet(klass, user));
  }

  /** In every class, the other user rated every item the user rated, the same way. */
  ghost predicate AgreesOn(db: Db, classes: seq<string>, user: string, other: string) {
    forall i :: 0 <= i < |classes| ==>
      db.Members(GemdSet(classes[i], user)) <= db.Members(GemdSet(classes[i], other)) &&
      db.Members(DisgemdSet(classes[i], user)) <= db.Members(DisgemdSet(classes[i], other))
  }

  /** In every class, the other user rated every item the user rated, the opposite way. */
  ghost predicate OpposesOn(db: Db, classes: seq<string>, user: string, other: string) {
    forall i :: 0 <= i < |classes| ==>
      db.Members(GemdSet(classes[i], user)) <= db.Members(DisgemdSet(classes[i], other)) &&
      db.Members(DisgemdSet(classes[i], user)) <= db.Members(GemdSet(classes[i], other))
  }

  lemma {:induction false} TallyOfAgreement(db: Db, classes: seq<string>, user: string, other: string)
    requires Exclusive(db) && AgreesOn(db, classes, user, other)
    ensures Tallied(db, classes, user, other).similarity == RatedCount(db, classes, user)
    decreases |classes|
  {
    if |classes| > 0 {
      var init := classes[..|classes| - 1];
      assert AgreesOn(db, init, user, other) by {
        forall i | 0 <= i < |init| ensures init[i] == classes[i] { }
      }
      TallyOfAgreement(db, init, user, other);
      var klass := classes[|classes| - 1];
      var g := db.Members(GemdSet(klass, user));
      var d := db.Members(DisgemdSet(klass, user));
      var og := db.Members(GemdSet(klass, other));
      var od := db.Members(DisgemdSet(klass, other));
      assert forall x :: x in og ==> x !in od;
      assert g * og == g && d * od == d;
      assert g * od == {} && d * og == {};
    }
  }

  lemma {:induction false} TallyOfOpposition(db: Db, classes: seq<string>, user: string, other: string)
    requires Exclusive(db) && OpposesOn(db, classes, user, other)
    ensures Tallied(db, classes, user, other).similarity == -(RatedCount(db, classes, user) as int)
    decreases |classes|
  {
    if |classes| > 0 {
      var init := classes[..|classes| - 1];
      assert OpposesOn(db, init, user, other) by {
        forall i | 0 <= i < |init| ensures init[i] == classes[i] { }
      }
      TallyOfOpposition(db, init, user, other);
      var klass := classes[|classes| - 1];
      var g := db.Members(GemdSet(klass, user));
      var d := db.Members(DisgemdSet(klass, user));
      var og := db.Members(GemdSet(klass, other));
      var od := db.Members(DisgemdSet(klass, other));
      assert forall x :: x in og ==> x !in od;
      assert g * od == g && d * og == d;
      assert g * og == {} && d * od == {};
    }
  }

  /**
   * Similarity 1.0: the other user rated everything the user rated in the
   * same way (and, as everywhere, nobody both likes and dislikes an item).
   */
  lemma SimilarityOfAgreement(db: Db, classes: seq<string>, user: string, other: string)
    requires RatedCount(db, classes, user) > 0
    requires Exclusive(db) && AgreesOn(db, classes, user, other)
    ensures Similarity(db, classes, user, other) == 1.0
  {
    TallyOfAgreement(db, classes, user, other);
    SimilarityRatio(db, classes, user, other);
    RatioOfSelf(RatedCount(db, classes, user));
  }

  /** Similarity -1.0: the other user rated everything the user rated in the opposite way. */
  lemma SimilarityOfOpposition(db: Db, classes: seq<string>, user: string, other: string)
    requires RatedCount(db, classes, user) > 0
    requires Exclusive(db) && OpposesOn(db, classes, user, other)
    ensures Similarity(db, classes, user, other) == -1.0
  {
    TallyOfOpposition(db, classes, user, other);
    SimilarityRatio(db, classes, user, other);
    RatioOfSelf(RatedCount(db, classes, user));
  }

  /**
   * Similarity is asymmetric. User u likes a; user o likes a and b. To u,
   * o agrees on everything (1.0); to o, u agrees on half (0.5), because the
   * denominator counts the first user's ratings only.
   */
  lemma SimilarityAsymmetric(db: Db, klass: string, u: string, o: string, a: string, b: string)
    requires a != b
    requires db.Members(GemdSet(klass, u)) == {a} && db.Members(GemdSet(klass, o)) == {a, b}
    requires db.Members(DisgemdSet(klass, u)) == {} && db.Members(DisgemdSet(klass, o)) == {}
    ensures RatedCount(db, [klass], u) == 1 && RatedCount(db, [klass], o) == 2
    ensures Similarity(db, [klass], u, o) == 1.0 && Similarity(db, [klass], o, u) == 0.5
  {
    PairFacts(a, b);
    TalliedOneClass(db, klass, u, o);
    TalliedOneClass(db, klass, o, u);
    var t1, t2 := ClassTally(db, klass, u, o), ClassTally(db, klass, o, u);
    LikesOnlyTally(db, klass, u, o);
    LikesOnlyTally(db, klass, o, u);
    SimilarityRatio(db, [klass], u, o);
    SimilarityRatio(db, [klass], o, u);
    Ratios(t1.similarity, RatedCount(db, [klass], u), t2.similarity, RatedCount(db, [klass], o));
  }

  /** Without dislikes, a class's tally is the number of items both like. */
  lemma LikesOnlyTally(db: Db, klass: string, user: string, other: string)
    requires db.Members(DisgemdSet(klass, user)) == {} && db.Members(DisgemdSet(klass, other)) == {}
    ensures ClassTally(db, klass, user, other).similarity == |db.Members(GemdSet(klass, user)) * db.Members(GemdSet(klass, other))|
  {
    var g, og := db.Members(GemdSet(klass, user)), db.Members(GemdSet(klass, other));
    var none: set<string> := {};
    assert g * none == {} && none * og == {} && none * none == {};
  }

  lemma PairFacts(a: string, b: string)
    requires a != b
    ensures |{a}| == 1 && |{a, b}| == 2 && |{a} * {a, b}| == 1 && |{a, b} * {a}| == 1
  {
    assert {a, b} == {a} + {b};
    assert {a} * {a, b} == {a} && {a, b} * {a} == {a};
  }

  lemma Ratios(x1: int, n1: int, x2: int, n2: int)
    requires x1 == 1 && n1 == 1 && x2 == 1 && n2 == 2
    ensures x1 as real / n1 as real == 1.0 && x2 as real / n2 as real == 0.5
  {
  }

  /** Over a single class the tally is that class's. */
  lemma TalliedOneClass(db: Db, klass: string, user: string, other: string)
    ensures Tallied(db, [klass], user, other) == ClassTally(db, klass, user, other)
    ensures RatedCount(db, [klass], user) == |db.Members(GemdSet(klass, user))| + |db.Members(DisgemdSet(klass, user))|
  {
    assert [klass][..0] == [];
  }

  /** The similarity is the tally's ratio. */
  lemma SimilarityRatio(db: Db, classes: seq<string>, user: string, other: string)
    requires RatedCount(db, classes, user) > 0
    ensures Similarity(db, classes, user, other) == Tallied(db, classes, user, other).similarity as real / RatedCount(db, classes, user) as real
  {
  }

  /** similarity_between's loop: a method over the store, equal to `Similarity`. */
  method SimilarityBetween(redis: Redis, cfg: Config, user: string, other: string) returns (s: real)
    requires RatedCount(redis.State(), cfg.ratableClasses, user) > 0
    ensures s == Similarity(redis.State(), cfg.ratableClasses, user, other)
  {
    var classes := cfg.ratableClasses;
    ghost var db := redis.State();
    // similarity, liked_count and disliked_count, summed class by class.
    var sum := Tally(0, 0, 0);
    for i := 0 to |classes|
      invariant sum == Tallied(db, classes[..i], user, other)
    {
      var t := ClassTallyFor(redis, classes[i], user, other);
      TalliedStep(db, classes, i, user, other);
      sum := Plus(sum, t);
    }
    assert classes[..|classes|] == classes;
    s := sum.similarity as real / (sum.gemdCount + sum.disgemdCount) as real;
  }

  /** One class of similarity_between's loop: the four SINTERs and the two SCARDs. */
  method ClassTallyFor(redis: Redis, klass: string, user: string, other: string) returns (t: Tally)
    ensures t == ClassTally(redis.State(), klass, user, other)
  {
    var agreeLike := redis.SInter(GemdSet(klass, user), GemdSet(klass, other));
    var agreeDislike := redis.SInter(DisgemdSet(klass, user), DisgemdSet(klass, other));
    var likeDislike := redis.SInter(GemdSet(klass, user), DisgemdSet(klass, other));
    var dislikeLike := redis.SInter(DisgemdSet(klass, user), GemdSet(klass, other));
    var likes := redis.SCard(GemdSet(klass, user));
    var dislikes := redis.SCard(DisgemdSet(klass, user));
    t := Tally(|agreeLike| + |agreeDislike| - |likeDislike| - |dislikeLike|, likes, dislikes);
  }

  // ---------------------------------------------------------------------
  // update_similarities_for
  // ---------------------------------------------------------------------

  /** The users who liked or disliked `item`. */
  function Raters(db: Db, klass: string, item: string): set<string> {
    db.Members(GemdBySet(klass, item)) + db.Members(DisgemdBySet(klass, item))
  }

  /** The users who liked or disliked one of `items` of class `klass`. */
  function RatersOf(db: Db, klass: string, items: set<string>): (r: set<string>)
    ensures forall item, v :: item in items && v in Raters(db, klass, item) ==> v in r
    ensures forall v :: v in r ==> exists item :: item in items && v in Raters(db, klass, item)
  {
    set item, v | item in items && v in Raters(db, klass, item) :: v
  }

  /** The items of class `klass` the user liked or disliked. */
  function RatedItems(db: Db, klass: string, user: string): set<string> {
    db.Members(GemdSet(klass, user)) + db.Members(DisgemdSet(klass, user))
  }

  /**
   * relevant_user_ids: the fold over the classes that collects everybody
   * who rated an item the user rated (the user included).
   */
  function RelevantUsers(db: Db, classes: seq<string>, user: string): set<string>
    decreases |classes|
  {
    if |classes| == 0 then {}
    else
      var memo := RelevantUsers(db, classes[..|classes| - 1], user);
      var klass := classes[|classes| - 1];
      var items := RatedItems(db, klass, user);
      if items == {} then memo else memo + RatersOf(db, klass, items)
  }

  /** A relevant user exists only if the user rated something, so the similarity denominator is positive. */
  lemma {:induction false} RelevantNeedsRatings(db: Db, classes: seq<string>, user: string)
    requires RelevantUsers(db, classes, user) != {}
    ensures RatedCount(db, classes, user) > 0
    decreases |classes|
  {
    var init := classes[..|classes| - 1];
    var klass := classes[|classes| - 1];
    if RelevantUsers(db, init, user) != {} {
      RelevantNeedsRatings(db, init, user);
    } else {
      assert RatedItems(db, klass, user) != {};
      var x :| x in RatedItems(db, klass, user);
      assert |db.Members(GemdSet(klass, user))| > 0 || |db.Members(DisgemdSet(klass, user))| > 0;
    }
  }

  /** Every relevant user rated, in one of the classes, an item the user also rated. */
  lemma {:induction false} RelevantShareAnItem(db: Db, classes: seq<string>, user: string, v: string)
    requires ReverseIndexed(db) && v in RelevantUsers(db, classes, user)
    ensures exists i, item :: 0 <= i < |classes| && item in RatedItems(db, classes[i], user) && item in RatedItems(db, classes[i], v)
    decreases |classes|
  {
    var init := classes[..|classes| - 1];
    var klass := classes[|classes| - 1];
    if v in RelevantUsers(db, init, user) {
      RelevantShareAnItem(db, init, user, v);
      var i, item :| 0 <= i < |init| && item in RatedItems(db, init[i], user) && item in RatedItems(db, init[i], v);
      assert init[i] == classes[i];
    } else {
      var item :| item in RatedItems(db, klass, user) && v in Raters(db, klass, item);
      assert item in RatedItems(db, klass, v);
      assert classes[|classes| - 1] == klass;
    }
  }

  /** SUNION over two keys. */
  lemma SUnionPair(db: Db, a: SetKey, b: SetKey)
    ensures db.SUnion([a, b]) == db.Members(a) + db.Members(b)
  {
    assert [a, b][1..] == [b];
    assert [b][1..] == [];
  }

  /** SUNION over keys extended by two more. */
  lemma SUnionAppend(db: Db, keys: seq<SetKey>, a: SetKey, b: SetKey)
    ensures db.SUnion(keys + [a, b]) == db.SUnion(keys) + db.Members(a) + db.Members(b)
  {
    var ks := keys + [a, b];
    forall m | m in db.SUnion(keys) ensures m in db.SUnion(ks) {
      var i :| 0 <= i < |keys| && m in db.Members(keys[i]);
      assert ks[i] == keys[i];
    }
    assert ks[|keys|] == a && ks[|keys| + 1] == b;
    forall m | m in db.SUnion(ks) ensures m in db.SUnion(keys) + db.Members(a) + db.Members(b) {
      var i :| 0 <= i < |ks| && m in db.Members(ks[i]);
      if i < |keys| {
        assert ks[i] == keys[i];
      }
    }
  }

  lemma RatersOfAdd(db: Db, klass: string, items: set<string>, item: string)
    ensures RatersOf(db, klass, items + {item}) == RatersOf(db, klass, items) + Raters(db, klass, item)
  {
  }

  lemma RatersStep(db: Db, klass: string, keys: seq<SetKey>, done: set<string>, id: string)
    requires db.SUnion(keys) == RatersOf(db, klass, done)
    ensures db.SUnion(keys + [GemdBySet(klass, id), DisgemdBySet(klass, id)]) == RatersOf(db, klass, done + {id})
  {
    SUnionAppend(db, keys, GemdBySet(klass, id), DisgemdBySet(klass, id));
    RatersOfAdd(db, klass, done, id);
  }

  /** The SUNION of the gemd_by and disgemd_by sets of every item in `items`. */
  method RatersOfItems(redis: Redis, klass: string, items: set<string>) returns (raters: set<string>)
    ensures raters == RatersOf(redis.State(), klass, items)
  {
    ghost var db := redis.State();
    var keys: seq<SetKey> := [];
    var todo := items;
    ghost var done: set<string> := {};
    while todo != {}
      invariant todo == items - done && done <= items
      invariant db.SUnion(keys) == RatersOf(db, klass, done)
      decreases todo
    {
      var id :| id in todo;
      RatersStep(db, klass, keys, done, id);
      keys := keys + [GemdBySet(klass, id), DisgemdBySet(klass, id)];
      todo := todo - {id};
      done := done + {id};
    }
    raters := redis.SUnion(keys);
  }

  /** relevant_user_ids, computed over the store with the source's SUNION calls. */
  method RelevantUserIds(redis: Redis, classes: seq<string>, user: string) returns (ids: set<string>)
    ensures ids == RelevantUsers(redis.State(), classes, user)
  {
    ghost var db := redis.State();
    ids := {};
    for i := 0 to |classes|
      invariant ids == RelevantUsers(db, classes[..i], user)
    {
      var klass := classes[i];
      var itemIds := redis.SUnion([GemdSet(klass, user), DisgemdSet(klass, user)]);
      SUnionPair(db, GemdSet(klass, user), DisgemdSet(klass, user));
      if itemIds != {} {
        var raters := RatersOfItems(redis, klass, itemIds);
        ids := ids + raters;
      }
      assert classes[..i + 1][..i] == classes[..i];
    }
    assert classes[..|classes|] == classes;
  }

  /** The similarity entries written for the users in `vs`: every one but the user. */
  function SimilaritiesOf(db: Db, classes: seq<string>, user: string, vs: set<string>): (m: map<string, real>)
    requires vs - {user} == {} || RatedCount(db, classes, user) > 0
    ensures forall v :: v in m <==> v in vs && v != user
    ensures forall v :: v in m ==> RatedCount(db, classes, user) > 0 && m[v] == Similarity(db, classes, user, v)
  {
    if vs - {user} == {} then
      assert forall v :: v in vs && v != user ==> v in vs - {user};
      map[]
    else map v | v in vs && v != user :: Similarity(db, classes, user, v)
  }

  /** The entries update_similarities_for writes: the similarity to each relevant user but the user. */
  function NewSimilarities(db: Db, classes: seq<string>, user: string): map<string, real> {
    var relevant := RelevantUsers(db, classes, user);
    if relevant == {} then map[]
    else
      RelevantNeedsRatings(db, classes, user);
      SimilaritiesOf(db, classes, user, relevant)
  }

  /**
   * The trim after the update: with a nearest-neighbour count, remove the
   * ranks from `kfn` (the furthest-neighbour count, 0 when unset) to
   * `length - knn - 1`, as Redis resolves those indices.
   */
  function TrimSimilarities(z: ZSet, cfg: Config): ZSet {
    match cfg.nearestNeighbors
    case None => z
    case Some(knn) => ZRemRangeByRank(z, cfg.furthestNeighbors.GetOr(0), |z| - knn - 1)
  }

  /**
   * update_similarities_for(user): the new similarities are added to (or
   * overwrite entries of) the user's similarity set, which is then trimmed.
   * Nothing else changes.
   */
  function UpdateSimilarities(db: Db, cfg: Config, user: string): (d: Db)
    ensures d.sets == db.sets
    ensures forall k :: k != SimilaritySet(user) ==> d.ZGet(k) == db.ZGet(k)
  {
    var sk := SimilaritySet(user);
    var added := db.ZAddAll(sk, NewSimilarities(db, cfg.ratableClasses, user));
    if cfg.nearestNeighbors.None? then added else added.PutZ(sk, TrimSimilarities(added.ZGet(sk), cfg))
  }

  lemma SimilaritiesOfAdd(db: Db, classes: seq<string>, user: string, done: set<string>, id: string)
    requires RatedCount(db, classes, user) > 0 && id != user
    ensures SimilaritiesOf(db, classes, user, done)[id := Similarity(db, classes, user, id)]
      == SimilaritiesOf(db, classes, user, done + {id})
  {
    MapExtend(SimilaritiesOf(db, classes, user, done), SimilaritiesOf(db, classes, user, done + {id}), id,
      Similarity(db, classes, user, id));
  }

  /** A map that agrees with `m1` and adds the entry `id := x` is `m1[id := x]`. */
  lemma MapExtend(m1: map<string, real>, m2: map<string, real>, id: string, x: real)
    requires forall v :: v in m2 <==> v in m1 || v == id
    requires id in m2 && m2[id] == x
    requires forall v :: v in m1 && v != id ==> m1[v] == m2[v]
    ensures m1[id := x] == m2
  {
    assert m1[id := x].Keys == m2.Keys;
  }

  lemma SimilaritiesOfSelf(db: Db, classes: seq<string>, user: string, done: set<string>)
    requires done - {user} == {} || RatedCount(db, classes, user) > 0
    ensures SimilaritiesOf(db, classes, user, done + {user}) == SimilaritiesOf(db, classes, user, done)
  {
  }

  /** Similarities read only the plain sets. */
  lemma SimilarityFrame(d1: Db, d2: Db, classes: seq<string>, user: string, other: string)
    requires d1.sets == d2.sets
    ensures RatedCount(d1, classes, user) == RatedCount(d2, classes, user)
    ensures RatedCount(d1, classes, user) > 0 ==> Similarity(d1, classes, user, other) == Similarity(d2, classes, user, other)
  {
    TalliedFrame(d1, d2, classes, user, other);
  }

  /** The entries of `m` whose keys are in `keys`. */
  function Restrict(m: map<string, real>, keys: set<string>): (r: map<string, real>)
    ensures forall k :: k in r <==> k in m && k in keys
    ensures forall k :: k in r ==> r[k] == m[k]
  {
    map k | k in m && k in keys :: m[k]
  }

  lemma RestrictStep(m: map<string, real>, keys: set<string>, x: string)
    ensures x in m ==> Restrict(m, keys)[x := m[x]] == Restrict(m, keys + {x})
    ensures x !in m ==> Restrict(m, keys) == Restrict(m, keys + {x})
  {
    if x in m {
      assert Restrict(m, keys)[x := m[x]].Keys == Restrict(m, keys + {x}).Keys;
    } else {
      assert Restrict(m, keys).Keys == Restrict(m, keys + {x}).Keys;
    }
  }

  lemma RestrictAll(m: map<string, real>, keys: set<string>)
    requires m.Keys <= keys
    ensures Restrict(m, keys) == m
  {
  }

  /** The similarity the loop computes on the current state is the entry planned on the initial one. */
  lemma PlannedSimilarity(db: Db, cur: Db, classes: seq<string>, user: string, relevant: set<string>, id: string)
    requires relevant - {user} == {} || RatedCount(db, classes, user) > 0
    requires cur.sets == db.sets && id in relevant && id != user
    ensures RatedCount(cur, classes, user) > 0
    ensures id in SimilaritiesOf(db, classes, user, relevant)
    ensures Similarity(cur, classes, user, id) == SimilaritiesOf(db, classes, user, relevant)[id]
  {
    assert id in relevant - {user};
    SimilarityFrame(db, cur, classes, user, id);
  }

  lemma DiffStep(all: set<string>, done: set<string>, x: string)
    requires x in all - done && done <= all
    ensures (all - done) - {x} == all - (done + {x}) && done + {x} <= all
  {
  }

  /** One iteration: the ZADD of the similarity to `id`, skipped for the user. */
  method WriteSimilarity(redis: Redis, cfg: Config, user: string, id: string, ghost db: Db, ghost relevant: set<string>, ghost done: set<string>)
    requires relevant - {user} == {} || RatedCount(db, cfg.ratableClasses, user) > 0
    requires id in relevant
    requires redis.State() == db.ZAddAll(SimilaritySet(user), Restrict(SimilaritiesOf(db, cfg.ratableClasses, user, relevant), done))
    modifies redis
    ensures redis.State() == db.ZAddAll(SimilaritySet(user), Restrict(SimilaritiesOf(db, cfg.ratableClasses, user, relevant), done + {id}))
  {
    ghost var planned := SimilaritiesOf(db, cfg.ratableClasses, user, relevant);
    RestrictStep(planned, done, id);
    if id != user {
      PlannedSimilarity(db, redis.State(), cfg.ratableClasses, user, relevant, id);
      var s := SimilarityBetween(redis, cfg, user, id);
      ZAddAllStep(db, SimilaritySet(user), Restrict(planned, done), id, s);
      redis.ZAdd(SimilaritySet(user), id, s);
    }
  }

  /** The loop of update_similarities_for: one ZADD per user of `relevant` but the user. */
  method WriteSimilarities(redis: Redis, cfg: Config, user: string, relevant: set<string>)
    requires relevant - {user} == {} || RatedCount(redis.State(), cfg.ratableClasses, user) > 0
    modifies redis
    ensures redis.State() == old(redis.State()).ZAddAll(SimilaritySet(user), SimilaritiesOf(old(redis.State()), cfg.ratableClasses, user, relevant))
  {
    ghost var db := redis.State();
    ghost var planned := SimilaritiesOf(db, cfg.ratableClasses, user, relevant);
    var sk := SimilaritySet(user);
    var todo := relevant;
    ghost var done: set<string> := {};
    assert Restrict(planned, {}) == map[];
    while todo != {}
      invariant done <= relevant && todo == relevant - done
      invariant redis.State() == db.ZAddAll(sk, Restrict(planned, done))
      decreases todo
    {
      var id :| id in todo;
      WriteSimilarity(redis, cfg, user, id, db, relevant, done);
      DiffStep(relevant, done, id);
      todo := todo - {id};
      done := done + {id};
    }
    RestrictAll(planned, done);
  }

  /** update_similarities_for: a method over the store, equal to `UpdateSimilarities`. */
  method UpdateSimilaritiesFor(redis: Redis, cfg: Config, user: string) returns (ok: bool)
    modifies redis
    ensures ok
    ensures redis.State() == UpdateSimilarities(old(redis.State()), cfg, user)
  {
    var sk := SimilaritySet(user);
    var relevant := RelevantUserIds(redis, cfg.ratableClasses, user);
    if relevant != {} {
      RelevantNeedsRatings(redis.State(), cfg.ratableClasses, user);
    }
    WriteSimilarities(redis, cfg, user, relevant);
    ghost var added := redis.State();
    match cfg.nearestNeighbors {
      case Some(knn) =>
        var length := redis.ZCard(sk);
        var kfn := cfg.furthestNeighbors.GetOr(0);
        redis.ZRemRangeByRank(sk, kfn, length - knn - 1);
        assert redis.State() == added.PutZ(sk, TrimSimilarities(added.ZGet(sk), cfg));
      case None =>
    }
    ok := true;
  }

  /**
   * Every entry of the user's similarity set after the update is either
   * the new similarity to a relevant user other than the user, or an
   * entry that was already there, with its old score. In particular the
   * user is never compared with themself.
   */
  lemma SimilarityEntries(db: Db, cfg: Config, user: string, v: string)
    requires v in UpdateSimilarities(db, cfg, user).ZGet(SimilaritySet(user))
    ensures var z := UpdateSimilarities(db, cfg, user).ZGet(SimilaritySet(user));
      var before := db.ZGet(SimilaritySet(user));
      if v in RelevantUsers(db, cfg.ratableClasses, user) && v != user
      then RatedCount(db, cfg.ratableClasses, user) > 0 && z[v] == Similarity(db, cfg.ratableClasses, user, v)
      else v in before && z[v] == before[v]
  {
    var sk := SimilaritySet(user);
    var newer := NewSimilarities(db, cfg.ratableClasses, user);
    SimilaritiesMerged(db, cfg, user);
    TrimSimilaritiesKeeps(db.ZGet(sk) + newer, cfg, v);
    NewSimilarityEntry(db, cfg.ratableClasses, user, v);
  }

  /** The similarity set after the update is the trim of the old set merged with the new entries. */
  lemma SimilaritiesMerged(db: Db, cfg: Config, user: string)
    ensures var sk := SimilaritySet(user);
      UpdateSimilarities(db, cfg, user).ZGet(sk) == TrimSimilarities(db.ZGet(sk) + NewSimilarities(db, cfg.ratableClasses, user), cfg)
  {
    var sk := SimilaritySet(user);
    var added := db.ZAddAll(sk, NewSimilarities(db, cfg.ratableClasses, user));
    ZAddAllGet(db, sk, NewSimilarities(db, cfg.ratableClasses, user));
    if cfg.nearestNeighbors.Some? {
      assert UpdateSimilarities(db, cfg, user) == added.PutZ(sk, TrimSimilarities(added.ZGet(sk), cfg));
    }
  }

  /** The trim only removes entries; the survivors keep their scores. */
  lemma TrimSimilaritiesKeeps(z: ZSet, cfg: Config, k: string)
    ensures var t := TrimSimilarities(z, cfg);
      k in t ==> k in z && t[k] == z[k]
  {
    if cfg.nearestNeighbors.Some? {
      RemovedByRankSubset(z, cfg.furthestNeighbors.GetOr(0), |z| - cfg.nearestNeighbors.value - 1);
    }
  }

  /** A new entry is written exactly for each relevant user but the user, scored with its similarity. */
  lemma NewSimilarityEntry(db: Db, classes: seq<string>, user: string, v: string)
    ensures var m := NewSimilarities(db, classes, user);
      && (v in m <==> v in RelevantUsers(db, classes, user) && v != user)
      && (v in m ==> RatedCount(db, classes, user) > 0 && m[v] == Similarity(db, classes, user, v))
  {
    if RelevantUsers(db, classes, user) != {} {
      RelevantNeedsRatings(db, classes, user);
    }
  }

  /**
   * Without a nearest-neighbour count nothing is trimmed: the similarity set
   * gains exactly the relevant users other than the user.
   */
  lemma UntrimmedSimilarities(db: Db, cfg: Config, user: string)
    requires cfg.nearestNeighbors.None?
    ensures var z := UpdateSimilarities(db, cfg, user).ZGet(SimilaritySet(user));
      forall v :: v in z <==> v in db.ZGet(SimilaritySet(user)) || (v in RelevantUsers(db, cfg.ratableClasses, user) && v != user)
  {
    var sk := SimilaritySet(user);
    var newer := NewSimilarities(db, cfg.ratableClasses, user);
    assert db.ZAddAll(sk, newer).ZGet(sk) == db.ZGet(sk) + newer;
  }

  /** Every stored similarity lies in [-1, 1]. */
  ghost predicate SimilaritiesBounded(db: Db) {
    forall u, v :: v in db.ZGet(SimilaritySet(u)) ==> -1.0 <= db.ZGet(SimilaritySet(u))[v] <= 1.0
  }

  /** update_similarities_for keeps every stored similarity in [-1, 1]. */
  lemma UpdateKeepsSimilaritiesBounded(db: Db, cfg: Config, user: string)
    requires SimilaritiesBounded(db)
    ensures SimilaritiesBounded(UpdateSimilarities(db, cfg, user))
  {
    var d := UpdateSimilarities(db, cfg, user);
    forall u, v | v in d.ZGet(SimilaritySet(u))
      ensures -1.0 <= d.ZGet(SimilaritySet(u))[v] <= 1.0
    {
      if u == user {
        SimilarityEntries(db, cfg, user, v);
      }
    }
  }

  /**
   * With more members than both counts together, the trim keeps exactly the
   * `kfn` least similar and the `knn` most similar users, with their scores.
   */
  lemma TrimKeepsNeighbours(z: ZSet, cfg: Config)
    requires cfg.nearestNeighbors.Some? && |z| > cfg.nearestNeighbors.value + cfg.furthestNeighbors.GetOr(0)
    ensures var knn, kfn := cfg.nearestNeighbors.value, cfg.furthestNeighbors.GetOr(0);
      var t := TrimSimilarities(z, cfg);
      && (forall k :: k in t <==> k in Ranked(z)[..kfn] || k in Ranked(z)[|z| - knn..])
      && (forall k :: k in t ==> t[k] == z[k])
      && |t| == kfn + knn
  {
    var knn, kfn := cfg.nearestNeighbors.value, cfg.furthestNeighbors.GetOr(0);
    assert TrimSimilarities(z, cfg) == ZRemRangeByRank(z, kfn, |z| - knn - 1);
    RemoveMiddle(z, kfn, knn);
  }

  /** With more than `knn` but at most `knn + kfn` members, the range is empty and nothing is removed. */
  lemma TrimWithinMargin(z: ZSet, cfg: Config)
    requires cfg.nearestNeighbors.Some?
    requires cfg.nearestNeighbors.value < |z| <= cfg.nearestNeighbors.value + cfg.furthestNeighbors.GetOr(0)
    ensures TrimSimilarities(z, cfg) == z
  {
  }

  /**
   * With exactly `knn` members the stop index is -1, which Redis reads as
   * the last rank: only the `kfn` least similar users survive, and with no
   * furthest-neighbour count the whole set is removed.
   */
  lemma TrimExactlyKnn(z: ZSet, cfg: Config)
    requires cfg.nearestNeighbors == Some(|z|) && cfg.furthestNeighbors.GetOr(0) < |z|
    ensures forall k :: k in TrimSimilarities(z, cfg) <==> k in Ranked(z)[..cfg.furthestNeighbors.GetOr(0)]
    ensures cfg.furthestNeighbors.GetOr(0) == 0 ==> TrimSimilarities(z, cfg) == map[]
  {
    RemoveToEnd(z, cfg.furthestNeighbors.GetOr(0));
  }

  // ---------------------------------------------------------------------
  // predict_for
  // ---------------------------------------------------------------------

  /** ZSCORE followed by to_f: a user missing from the similarity set counts as 0.0. */
  function ScoreOr0(z: ZSet, id: string): real {
    ZScore(z, id).GetOr(0.0)
  }

  /** The sum of the users' similarity scores, taken in member order. */
  function SumScores(z: ZSet, ids: set<string>): real
    decreases |ids|
  {
    if ids == {} then 0.0
    else
      var m := MinString(ids);
      ScoreOr0(z, m) + SumScores(z, ids - {m})
  }

  /** The sum does not depend on the order: any member can be taken first. */
  lemma {:induction false} SumScoresRemove(z: ZSet, ids: set<string>, x: string)
    requires x in ids
    ensures SumScores(z, ids) == ScoreOr0(z, x) + SumScores(z, ids - {x})
    decreases |ids|
  {
    var m := MinString(ids);
    if x != m {
      SumScoresRemove(z, ids - {m}, x);
      SumScoresRemove(z, ids - {x}, m);
      assert ids - {m} - {x} == ids - {x} - {m};
    }
  }

  /** Users without a similarity entry contribute nothing. */
  lemma {:induction false} SumScoresOfStrangers(z: ZSet, ids: set<string>)
    requires forall id :: id in ids ==> id !in z
    ensures SumScores(z, ids) == 0.0
    decreases |ids|
  {
    if ids != {} {
      SumScoresOfStrangers(z, ids - {MinString(ids)});
    }
  }

  /** With every score in [-1, 1], the sum lies in [-|ids|, |ids|]. */
  lemma {:induction false} SumScoresBounded(z: ZSet, ids: set<string>)
    requires forall id :: id in z ==> -1.0 <= z[id] <= 1.0
    ensures -(|ids| as real) <= SumScores(z, ids) <= |ids| as real
    decreases |ids|
  {
    if ids != {} {
      var m := MinString(ids);
      SumScoresBounded(z, ids - {m});
    }
  }

  /** When every user's score is `c`, the sum is `c` times their number. */
  lemma {:induction false} SumScoresConstant(z: ZSet, ids: set<string>, c: real)
    requires forall id :: id in ids ==> id in z && z[id] == c
    ensures SumScores(z, ids) == |ids| as real * c
    decreases |ids|
  {
    if ids != {} {
      var m := MinString(ids);
      SumScoresConstant(z, ids - {m}, c);
    }
  }

  /**
   * predict_for(user, klass, item): the likers' similarities minus the
   * dislikers', divided by their number. Ruby's division yields NaN when
   * nobody rated the item, and the source replaces a non-finite result by 0.0.
   */
  function Predict(db: Db, user: string, klass: string, item: string): real {
    Prediction(db.ZGet(SimilaritySet(user)), db.Members(GemdBySet(klass, item)), db.Members(DisgemdBySet(klass, item)))
  }

  /** The formula of predict_for, from the similarity set and the two rater sets. */
  function Prediction(z: ZSet, likers: set<string>, dislikers: set<string>): real {
    var n := |likers| + |dislikers|;
    if n == 0 then 0.0 else (SumScores(z, likers) - SumScores(z, dislikers)) / n as real
  }

  lemma RealRatioBounds(x: real, n: real)
    requires n > 0.0 && -n <= x <= n
    ensures -1.0 <= x / n <= 1.0
  {
  }

  /** A prediction reads only the user's similarity set and the item's two rater sets. */
  lemma PredictFrame(d1: Db, d2: Db, user: string, klass: string, item: string)
    requires d1.ZGet(SimilaritySet(user)) == d2.ZGet(SimilaritySet(user))
    requires d1.Members(GemdBySet(klass, item)) == d2.Members(GemdBySet(klass, item))
    requires d1.Members(DisgemdBySet(klass, item)) == d2.Members(DisgemdBySet(klass, item))
    ensures Predict(d1, user, klass, item) == Predict(d2, user, klass, item)
  {
  }

  /** A prediction made from similarities in [-1, 1] lies in [-1, 1]. */
  lemma PredictBounded(db: Db, user: string, klass: string, item: string)
    requires SimilaritiesBounded(db)
    ensures -1.0 <= Predict(db, user, klass, item) <= 1.0
  {
    var z := db.ZGet(SimilaritySet(user));
    var likers := db.Members(GemdBySet(klass, item));
    var dislikers := db.Members(DisgemdBySet(klass, item));
    SumScoresBounded(z, likers);
    SumScoresBounded(z, dislikers);
    if |likers| + |dislikers| > 0 {
      RealRatioBounds(SumScores(z, likers) - SumScores(z, dislikers), (|likers| + |dislikers|) as real);
    }
  }

  /**
   * If everyone who liked the item is fully similar to the user (1.0) and
   * everyone who disliked it fully dissimilar (-1.0), the prediction is 1.0;
   * if nobody known to the user rated it, it is 0.0.
   */
  lemma PredictUnanimous(db: Db, user: string, klass: string, item: string)
    requires var z := db.ZGet(SimilaritySet(user));
      && (forall v :: v in db.Members(GemdBySet(klass, item)) ==> v in z && z[v] == 1.0)
      && (forall v :: v in db.Members(DisgemdBySet(klass, item)) ==> v in z && z[v] == -1.0)
    requires |db.Members(GemdBySet(klass, item))| + |db.Members(DisgemdBySet(klass, item))| > 0
    ensures Predict(db, user, klass, item) == 1.0
  {
    var z := db.ZGet(SimilaritySet(user));
    var likers := db.Members(GemdBySet(klass, item));
    var dislikers := db.Members(DisgemdBySet(klass, item));
    SumScoresConstant(z, likers, 1.0);
    SumScoresConstant(z, dislikers, -1.0);
    RatioOfSelf(|likers| + |dislikers|);
  }

  lemma PredictOfStrangers(db: Db, user: string, klass: string, item: string)
    requires var z := db.ZGet(SimilaritySet(user));
      forall v :: v in db.Members(GemdBySet(klass, item)) + db.Members(DisgemdBySet(klass, item)) ==> v !in z
    ensures Predict(db, user, klass, item) == 0.0
  {
    PredictionOfStrangers(db.ZGet(SimilaritySet(user)), db.Members(GemdBySet(klass, item)), db.Members(DisgemdBySet(klass, item)));
  }

  lemma PredictionOfStrangers(z: ZSet, likers: set<string>, dislikers: set<string>)
    requires forall v :: v in likers + dislikers ==> v !in z
    ensures Prediction(z, likers, dislikers) == 0.0
  {
    SumScoresOfStrangers(z, likers);
    SumScoresOfStrangers(z, dislikers);
    ZeroOver((|likers| + |dislikers|) as real);
  }

  lemma ZeroOver(d: real)
    ensures d != 0.0 ==> (0.0 - 0.0) / d == 0.0
  {
  }

  /** The inject over SMEMBERS: the sum of the users' ZSCOREs, in the order the set yields them. */
  method SumScoresFor(redis: Redis, sk: ZKey, ids: set<string>) returns (sum: real)
    ensures sum == SumScores(redis.State().ZGet(sk), ids)
  {
    ghost var z := redis.State().ZGet(sk);
    sum := 0.0;
    var todo := ids;
    while todo != {}
      invariant todo <= ids
      invariant sum + SumScores(z, todo) == SumScores(z, ids)
      decreases todo
    {
      var id :| id in todo;
      var score := redis.ZScore(sk, id);
      SumScoresRemove(z, todo, id);
      sum := sum + score.GetOr(0.0);
      todo := todo - {id};
    }
  }

  /** predict_for: a method over the store, equal to `Predict`. */
  method PredictFor(redis: Redis, user: string, klass: string, item: string) returns (p: real)
    ensures p == Predict(redis.State(), user, klass, item)
  {
    var sk := SimilaritySet(user);
    var likers := redis.SMembers(GemdBySet(klass, item));
    var dislikers := redis.SMembers(DisgemdBySet(klass, item));
    var likeSum := SumScoresFor(redis, sk, likers);
    var dislikeSum := SumScoresFor(redis, sk, dislikers);
    var similaritySum := 0.0 + likeSum - dislikeSum;
    var gemdByCount := redis.SCard(GemdBySet(klass, item));
    var disgemdByCount := redis.SCard(DisgemdBySet(klass, item));
    if gemdByCount + disgemdByCount == 0 {
      p := 0.0;
    } else {
      p := similaritySum / (gemdByCount + disgemdByCount) as real;
    }
  }

  // ---------------------------------------------------------------------
  // update_recommendations_for
  // ---------------------------------------------------------------------

  /** The neighbour count: the nearest-neighbour setting, else the number of users. */
  function NeighbourCount(cfg: Config): nat {
    cfg.nearestNeighbors.GetOr(cfg.userCount)
  }

  /** The gemd sets of `ids`, in order. */
  function GemdSetsOf(klass: string, ids: seq<string>): (ks: seq<SetKey>)
    ensures |ks| == |ids| && forall i :: 0 <= i < |ids| ==> ks[i] == GemdSet(klass, ids[i])
    decreases |ids|
  {
    if ids == [] then [] else GemdSetsOf(klass, ids[..|ids| - 1]) + [GemdSet(klass, ids[|ids| - 1])]
  }

  /** The disgemd sets of `ids`, in order. */
  function DisgemdSetsOf(klass: string, ids: seq<string>): (ks: seq<SetKey>)
    ensures |ks| == |ids| && forall i :: 0 <= i < |ids| ==> ks[i] == DisgemdSet(klass, ids[i])
    decreases |ids|
  {
    if ids == [] then [] else DisgemdSetsOf(klass, ids[..|ids| - 1]) + [DisgemdSet(klass, ids[|ids| - 1])]
  }

  /** Everything the user has already rated, hidden or bookmarked in `klass`. */
  function RatedSets(klass: string, user: string): seq<SetKey> {
    [GemdSet(klass, user), DisgemdSet(klass, user), HiddenSet(klass, user), BookmarkedSet(klass, user)]
  }

  /** ZREVRANGE similarity_set 0 (nn - 1): the most similar users. */
  function MostSimilar(db: Db, cfg: Config, user: string): seq<string> {
    ZRevRange(db.ZGet(SimilaritySet(user)), 0, NeighbourCount(cfg) - 1)
  }

  /** ZRANGE similarity_set 0 (nn - 1): the least similar users. */
  function LeastSimilar(db: Db, cfg: Config, user: string): seq<string> {
    ZRange(db.ZGet(SimilaritySet(user)), 0, NeighbourCount(cfg) - 1)
  }

  /** sets_to_union: the most similar users' gemd sets, then the least similar users' disgemd sets. */
  function NeighbourSets(db: Db, cfg: Config, klass: string, user: string): seq<SetKey> {
    GemdSetsOf(klass, MostSimilar(db, cfg, user)) + DisgemdSetsOf(klass, LeastSimilar(db, cfg, user))
  }

  /** The items to score: the members of `sets` minus the rated, hidden and bookmarked ones. */
  function CandidatesFrom(db: Db, klass: string, user: string, sets: seq<SetKey>): set<string> {
    db.SUnion(sets) - db.SUnion(RatedSets(klass, user))
  }

  function Candidates(db: Db, cfg: Config, klass: string, user: string): set<string> {
    CandidatesFrom(db, klass, user, NeighbourSets(db, cfg, klass, user))
  }

  /** The prediction for each item. */
  function Predictions(db: Db, user: string, klass: string, items: set<string>): (m: map<string, real>)
    ensures m.Keys == items
  {
    map i | i in items :: Predict(db, user, klass, i)
  }

  /** The trim of the recommended set: remove ranks 0 to `length - n - 1`. */
  function TrimRecommendations(z: ZSet, cfg: Config): ZSet {
    match cfg.recommendationsToStore
    case None => z
    case Some(n) => ZRemRangeByRank(z, 0, |z| - n - 1)
  }

  /**
   * One class of update_recommendations_for. `None` is the early return
   * when there are no sets to union. Otherwise the temporary set receives
   * the union, the candidates' predictions are added to the recommended
   * set, the temporary set is deleted and the recommended set trimmed.
   */
  function RecommendClass(db: Db, cfg: Config, klass: string, user: string): Option<Db> {
    var sets := NeighbourSets(db, cfg, klass, user);
    if sets == [] then None else Some(RecommendFrom(db, cfg, klass, user, sets))
  }

  /** The writes of one class, once the sets to union are known. */
  function RecommendFrom(db: Db, cfg: Config, klass: string, user: string, sets: seq<SetKey>): Db {
    var temp := TempSet(cfg.userClass, user);
    var rk := RecommendedSet(klass, user);
    var stored := db.PutSet(temp, db.SUnion(sets));
    var items := stored.Members(temp) - stored.SUnion(RatedSets(klass, user));
    StoreScores(stored, cfg, temp, rk, Predictions(stored, user, klass, items))
  }

  /** The ZADDs of the scores, the DEL of the temporary set and the trim. */
  function StoreScores(stored: Db, cfg: Config, temp: SetKey, rk: ZKey, scores: map<string, real>): Db {
    var added := stored.ZAddAll(rk, scores).Del(temp);
    if cfg.recommendationsToStore.None? then added else added.PutZ(rk, TrimRecommendations(added.ZGet(rk), cfg))
  }

  /**
   * update_recommendations_for(user) over `classes`: the classes in order;
   * the first early return abandons the remaining ones and yields nil
   * (`false`), otherwise the result is true.
   */
  function UpdateRecommendations(db: Db, cfg: Config, user: string, classes: seq<string>): (bool, Db)
    decreases |classes|
  {
    if classes == [] then (true, db)
    else
      match RecommendClass(db, cfg, classes[0], user)
      case None => (false, db)
      case Some(d) => UpdateRecommendations(d, cfg, user, classes[1..])
  }

  /** The array of [prediction, id] pairs as a map from id to prediction. */
  function PairsMap(ps: seq<(real, string)>): map<string, real>
    decreases |ps|
  {
    if ps == [] then map[] else PairsMap(ps[..|ps| - 1])[ps[|ps| - 1].1 := ps[|ps| - 1].0]
  }

  lemma GemdSetsPrefix(klass: string, ids: seq<string>, i: nat)
    requires i < |ids|
    ensures GemdSetsOf(klass, ids[..i + 1]) == GemdSetsOf(klass, ids[..i]) + [GemdSet(klass, ids[i])]
  {
    assert ids[..i + 1][..i] == ids[..i];
  }

  lemma DisgemdSetsPrefix(klass: string, ids: seq<string>, i: nat)
    requires i < |ids|
    ensures DisgemdSetsOf(klass, ids[..i + 1]) == DisgemdSetsOf(klass, ids[..i]) + [DisgemdSet(klass, ids[i])]
  {
    assert ids[..i + 1][..i] == ids[..i];
  }

  /** sets_to_union, built over the store with the two injects. */
  method NeighbourSetsFor(redis: Redis, cfg: Config, klass: string, user: string) returns (sets: seq<SetKey>)
    ensures sets == NeighbourSets(redis.State(), cfg, klass, user)
  {
    var sk := SimilaritySet(user);
    var nn: int := cfg.nearestNeighbors.GetOr(cfg.userCount);
    var most := redis.ZRevRange(sk, 0, nn - 1);
    var least := redis.ZRange(sk, 0, nn - 1);
    var liked := CollectGemdSets(klass, most);
    var disliked := CollectDisgemdSets(klass, least);
    sets := liked + disliked;
  }

  /** The first inject: the gemd set of each most similar user, in order. */
  method CollectGemdSets(klass: string, users: seq<string>) returns (sets: seq<SetKey>)
    ensures sets == GemdSetsOf(klass, users)
  {
    sets := [];
    for i := 0 to |users|
      invariant sets == GemdSetsOf(klass, users[..i])
    {
      GemdSetsPrefix(klass, users, i);
      sets := sets + [GemdSet(klass, users[i])];
    }
    assert users[..|users|] == users;
  }

  /** The second inject: the disgemd set of each least similar user, in order. */
  method CollectDisgemdSets(klass: string, users: seq<string>) returns (sets: seq<SetKey>)
    ensures sets == DisgemdSetsOf(klass, users)
  {
    sets := [];
    for i := 0 to |users|
      invariant sets == DisgemdSetsOf(klass, users[..i])
    {
      DisgemdSetsPrefix(klass, users, i);
      sets := sets + [DisgemdSet(klass, users[i])];
    }
    assert users[..|users|] == users;
  }

  lemma PairsStep(ps: seq<(real, string)>, p: real, id: string)
    ensures PairsMap(ps + [(p, id)]) == PairsMap(ps)[id := p]
  {
    assert (ps + [(p, id)])[..|ps|] == ps;
  }

  lemma PredictionsStep(db: Db, user: string, klass: string, done: set<string>, id: string)
    ensures Predictions(db, user, klass, done)[id := Predict(db, user, klass, id)] == Predictions(db, user, klass, done + {id})
  {
    assert Predictions(db, user, klass, done)[id := Predict(db, user, klass, id)].Keys == Predictions(db, user, klass, done + {id}).Keys;
  }

  /** scores = item_ids.map { [predict_for(...), id] }. */
  method PredictionsFor(redis: Redis, user: string, klass: string, items: set<string>) returns (scores: seq<(real, string)>)
    ensures PairsMap(scores) == Predictions(redis.State(), user, klass, items)
  {
    ghost var db := redis.State();
    scores := [];
    var todo := items;
    ghost var done: set<string> := {};
    assert Predictions(db, user, klass, {}) == map[];
    while todo != {}
      invariant done <= items && todo == items - done
      invariant PairsMap(scores) == Predictions(db, user, klass, done)
      decreases todo
    {
      var id :| id in todo;
      var p := PredictFor(redis, user, klass, id);
      PairsStep(scores, p, id);
      PredictionsStep(db, user, klass, done, id);
      DiffStep(items, done, id);
      scores := scores + [(p, id)];
      todo := todo - {id};
      done := done + {id};
    }
  }

  lemma ZAddPairStep(db: Db, k: ZKey, scores: seq<(real, string)>, i: nat)
    requires i < |scores|
    ensures db.ZAddAll(k, PairsMap(scores[..i])).ZAdd(k, scores[i].1, scores[i].0) == db.ZAddAll(k, PairsMap(scores[..i + 1]))
  {
    ZAddAllStep(db, k, PairsMap(scores[..i]), scores[i].1, scores[i].0);
    PairsPrefix(scores, i);
  }

  lemma PairsPrefix(ps: seq<(real, string)>, i: nat)
    requires i < |ps|
    ensures PairsMap(ps[..i + 1]) == PairsMap(ps[..i])[ps[i].1 := ps[i].0]
  {
    assert ps[..i + 1][..i] == ps[..i];
  }

  /** scores.each { zadd }. */
  method ZAddPairs(redis: Redis, k: ZKey, scores: seq<(real, string)>)
    modifies redis
    ensures redis.State() == old(redis.State()).ZAddAll(k, PairsMap(scores))
  {
    ghost var db := redis.State();
    for i := 0 to |scores|
      invariant redis.State() == db.ZAddAll(k, PairsMap(scores[..i]))
    {
      ZAddPairStep(db, k, scores, i);
      redis.ZAdd(k, scores[i].1, scores[i].0);
    }
    assert scores[..|scores|] == scores;
  }

  /** One class of update_recommendations_for over the store; `false` is the early return. */
  method RecommendClassFor(redis: Redis, cfg: Config, klass: string, user: string) returns (stored: bool)
    modifies redis
    ensures var r := RecommendClass(old(redis.State()), cfg, klass, user);
      stored == r.Some? && redis.State() == if r.Some? then r.value else old(redis.State())
  {
    var sets := NeighbourSetsFor(redis, cfg, klass, user);
    if sets == [] {
      return false;
    }
    RecommendFromFor(redis, cfg, klass, user, sets);
    stored := true;
  }

  /** The writes of one class over the store: SUNIONSTORE, SDIFF, the predictions and their storing. */
  method RecommendFromFor(redis: Redis, cfg: Config, klass: string, user: string, sets: seq<SetKey>)
    modifies redis
    ensures redis.State() == RecommendFrom(old(redis.State()), cfg, klass, user, sets)
  {
    var temp := TempSet(cfg.userClass, user);
    var rk := RecommendedSet(klass, user);
    redis.SUnionStore(temp, sets);
    var items := redis.SDiff(temp, RatedSets(klass, user));
    var scores := PredictionsFor(redis, user, klass, items);
    StoreScoresFor(redis, cfg, temp, rk, scores);
  }

  /** The ZADDs, the DEL of the temporary set and, with a limit configured, the trim. */
  method StoreScoresFor(redis: Redis, cfg: Config, temp: SetKey, rk: ZKey, scores: seq<(real, string)>)
    modifies redis
    ensures redis.State() == StoreScores(old(redis.State()), cfg, temp, rk, PairsMap(scores))
  {
    ZAddPairs(redis, rk, scores);
    redis.Del(temp);
    ghost var added := redis.State();
    match cfg.recommendationsToStore {
      case Some(n) =>
        var length := redis.ZCard(rk);
        redis.ZRemRangeByRank(rk, 0, length - n - 1);
        assert redis.State() == added.PutZ(rk, TrimRecommendations(added.ZGet(rk), cfg));
      case None =>
    }
  }

  /** update_recommendations_for: a method over the store, equal to `UpdateRecommendations`. */
  method UpdateRecommendationsFor(redis: Redis, cfg: Config, user: string) returns (ok: bool)
    modifies redis
    ensures (ok, redis.State()) == UpdateRecommendations(old(redis.State()), cfg, user, cfg.ratableClasses)
  {
    var classes := cfg.ratableClasses;
    for i := 0 to |classes|
      invariant UpdateRecommendations(old(redis.State()), cfg, user, classes) == UpdateRecommendations(redis.State(), cfg, user, classes[i..])
    {
      assert classes[i..][0] == classes[i] && classes[i..][1..] == classes[i + 1..];
      var stored := RecommendClassFor(redis, cfg, classes[i], user);
      if !stored {
        return false;
      }
    }
    ok := true;
  }

  /** One class's writes change no sorted set but the recommended set. */
  lemma RecommendFromZFrame(db: Db, cfg: Config, klass: string, user: string, sets: seq<SetKey>, k: ZKey)
    requires k != RecommendedSet(klass, user)
    ensures RecommendFrom(db, cfg, klass, user, sets).ZGet(k) == db.ZGet(k)
  {
  }

  /** One class's writes leave every plain set but the temporary one as it was, and delete the temporary one. */
  lemma RecommendFromSetFrame(db: Db, cfg: Config, klass: string, user: string, sets: seq<SetKey>, k: SetKey)
    ensures RecommendFrom(db, cfg, klass, user, sets).Members(k) == if k == TempSet(cfg.userClass, user) then {} else db.Members(k)
  {
  }

  lemma RecommendClassFrame(db: Db, cfg: Config, klass: string, user: string)
    requires RecommendClass(db, cfg, klass, user).Some?
    ensures var d := RecommendClass(db, cfg, klass, user).value;
      && (forall k :: k != RecommendedSet(klass, user) ==> d.ZGet(k) == db.ZGet(k))
      && (forall k :: k != TempSet(cfg.userClass, user) ==> d.Members(k) == db.Members(k))
      && d.Members(TempSet(cfg.userClass, user)) == {}
  {
    var sets := NeighbourSets(db, cfg, klass, user);
    var d := RecommendFrom(db, cfg, klass, user, sets);
    assert RecommendClass(db, cfg, klass, user).value == d;
    forall k | k != RecommendedSet(klass, user) ensures d.ZGet(k) == db.ZGet(k) {
      RecommendFromZFrame(db, cfg, klass, user, sets, k);
    }
    forall k | k != TempSet(cfg.userClass, user) ensures d.Members(k) == db.Members(k) {
      RecommendFromSetFrame(db, cfg, klass, user, sets, k);
    }
    RecommendFromSetFrame(db, cfg, klass, user, sets, TempSet(cfg.userClass, user));
  }

  /** The early return happens exactly when the user's similarity set is empty. */
  lemma EarlyReturnIffNoNeighbours(db: Db, cfg: Config, klass: string, user: string)
    ensures RecommendClass(db, cfg, klass, user).None? <==> |db.ZGet(SimilaritySet(user))| == 0
  {
    var z := db.ZGet(SimilaritySet(user));
    RangeFromZero(z, NeighbourCount(cfg));
    assert |NeighbourSets(db, cfg, klass, user)| == |MostSimilar(db, cfg, user)| + |LeastSimilar(db, cfg, user)|;
  }

  /**
   * update_recommendations_for yields true exactly when there are no
   * classes or the user has a similarity entry; an early return leaves the
   * store as it was; the similarity set is never changed.
   */
  lemma {:induction false} UpdateRecommendationsOutcome(db: Db, cfg: Config, user: string, classes: seq<string>)
    ensures var r := UpdateRecommendations(db, cfg, user, classes);
      && (r.0 <==> classes == [] || |db.ZGet(SimilaritySet(user))| > 0)
      && (!r.0 ==> r.1 == db)
      && r.1.ZGet(SimilaritySet(user)) == db.ZGet(SimilaritySet(user))
    decreases |classes|
  {
    if classes != [] {
      EarlyReturnIffNoNeighbours(db, cfg, classes[0], user);
      match RecommendClass(db, cfg, classes[0], user)
      case None =>
      case Some(d) =>
        RecommendClassFrame(db, cfg, classes[0], user);
        UpdateRecommendationsOutcome(d, cfg, user, classes[1..]);
    }
  }

  /** SUNION over keys that do not include `k` ignores a write to `k`. */
  lemma SUnionFrame(db: Db, keys: seq<SetKey>, k: SetKey, s: set<string>)
    requires forall i :: 0 <= i < |keys| ==> keys[i] != k
    ensures db.PutSet(k, s).SUnion(keys) == db.SUnion(keys)
  {
  }

  /** An item is in the union of the neighbours' sets exactly when one of those users rated it so. */
  lemma NeighbourUnion(db: Db, klass: string, most: seq<string>, least: seq<string>, item: string)
    ensures item in db.SUnion(GemdSetsOf(klass, most) + DisgemdSetsOf(klass, least)) <==>
      (exists i :: 0 <= i < |most| && item in db.Members(GemdSet(klass, most[i])))
      || (exists i :: 0 <= i < |least| && item in db.Members(DisgemdSet(klass, least[i])))
  {
    if exists i :: 0 <= i < |most| && item in db.Members(GemdSet(klass, most[i])) {
      var i :| 0 <= i < |most| && item in db.Members(GemdSet(klass, most[i]));
      NeighbourUnionFromGemd(db, klass, most, least, item, i);
    }
    if exists i :: 0 <= i < |least| && item in db.Members(DisgemdSet(klass, least[i])) {
      var i :| 0 <= i < |least| && item in db.Members(DisgemdSet(klass, least[i]));
      NeighbourUnionFromDisgemd(db, klass, most, least, item, i);
    }
    if item in db.SUnion(GemdSetsOf(klass, most) + DisgemdSetsOf(klass, least)) {
      NeighbourUnionSource(db, klass, most, least, item);
    }
  }

  lemma NeighbourUnionFromGemd(db: Db, klass: string, most: seq<string>, least: seq<string>, item: string, i: int)
    requires 0 <= i < |most| && item in db.Members(GemdSet(klass, most[i]))
    ensures item in db.SUnion(GemdSetsOf(klass, most) + DisgemdSetsOf(klass, least))
  {
    var sets := GemdSetsOf(klass, most) + DisgemdSetsOf(klass, least);
    assert sets[i] == GemdSet(klass, most[i]);
  }

  lemma NeighbourUnionFromDisgemd(db: Db, klass: string, most: seq<string>, least: seq<string>, item: string, i: int)
    requires 0 <= i < |least| && item in db.Members(DisgemdSet(klass, least[i]))
    ensures item in db.SUnion(GemdSetsOf(klass, most) + DisgemdSetsOf(klass, least))
  {
    var sets := GemdSetsOf(klass, most) + DisgemdSetsOf(klass, least);
    assert sets[|most| + i] == DisgemdSet(klass, least[i]);
  }

  lemma NeighbourUnionSource(db: Db, klass: string, most: seq<string>, least: seq<string>, item: string)
    requires item in db.SUnion(GemdSetsOf(klass, most) + DisgemdSetsOf(klass, least))
    ensures (exists i :: 0 <= i < |most| && item in db.Members(GemdSet(klass, most[i])))
      || (exists i :: 0 <= i < |least| && item in db.Members(DisgemdSet(klass, least[i])))
  {
    UnionSource(db, GemdSetsOf(klass, most), DisgemdSetsOf(klass, least), klass, most, least, item);
  }

  lemma UnionSource(db: Db, gs: seq<SetKey>, ds: seq<SetKey>, klass: string, most: seq<string>, least: seq<string>, item: string)
    requires |gs| == |most| && forall i :: 0 <= i < |most| ==> gs[i] == GemdSet(klass, most[i])
    requires |ds| == |least| && forall i :: 0 <= i < |least| ==> ds[i] == DisgemdSet(klass, least[i])
    requires item in db.SUnion(gs + ds)
    ensures (exists i :: 0 <= i < |most| && item in db.Members(GemdSet(klass, most[i])))
      || (exists i :: 0 <= i < |least| && item in db.Members(DisgemdSet(klass, least[i])))
  {
    var sets := gs + ds;
    var j :| 0 <= j < |sets| && item in db.Members(sets[j]);
    if j < |gs| {
      assert sets[j] == gs[j];
      assert item in db.Members(GemdSet(klass, most[j]));
    } else {
      var i := j - |gs|;
      assert sets[j] == ds[i];
      assert item in db.Members(DisgemdSet(klass, least[i]));
    }
  }

  lemma RatedUnion(db: Db, klass: string, user: string, item: string)
    ensures item in db.SUnion(RatedSets(klass, user)) <==>
      item in db.Members(GemdSet(klass, user)) || item in db.Members(DisgemdSet(klass, user))
      || item in db.Members(HiddenSet(klass, user)) || item in db.Members(BookmarkedSet(klass, user))
  {
    var rated := RatedSets(klass, user);
    assert rated[0] == GemdSet(klass, user) && rated[1] == DisgemdSet(klass, user);
    assert rated[2] == HiddenSet(klass, user) && rated[3] == BookmarkedSet(klass, user);
    if item in db.SUnion(rated) {
      var j :| 0 <= j < 4 && item in db.Members(rated[j]);
      assert j == 0 || j == 1 || j == 2 || j == 3;
    }
  }

  /**
   * The candidates are the items some most-similar user liked or some
   * least-similar user disliked, that the user has not liked, disliked,
   * hidden or bookmarked.
   */
  lemma CandidatesFromNeighbours(db: Db, cfg: Config, klass: string, user: string, item: string)
    ensures var most, least := MostSimilar(db, cfg, user), LeastSimilar(db, cfg, user);
      item in Candidates(db, cfg, klass, user) <==>
        && item !in db.Members(GemdSet(klass, user)) && item !in db.Members(DisgemdSet(klass, user))
        && item !in db.Members(HiddenSet(klass, user)) && item !in db.Members(BookmarkedSet(klass, user))
        && ((exists i :: 0 <= i < |most| && item in db.Members(GemdSet(klass, most[i])))
          || (exists i :: 0 <= i < |least| && item in db.Members(DisgemdSet(klass, least[i]))))
  {
    NeighbourUnion(db, klass, MostSimilar(db, cfg, user), LeastSimilar(db, cfg, user), item);
    RatedUnion(db, klass, user, item);
  }

  /**
   * Every entry of the recommended set after the writes is either a
   * candidate, scored with its prediction, or an older entry that was not
   * a candidate, with its old score.
   */
  lemma RecommendFromEntries(db: Db, cfg: Config, klass: string, user: string, sets: seq<SetKey>, item: string)
    requires item in RecommendFrom(db, cfg, klass, user, sets).ZGet(RecommendedSet(klass, user))
    ensures var z := RecommendFrom(db, cfg, klass, user, sets).ZGet(RecommendedSet(klass, user));
      var before := db.ZGet(RecommendedSet(klass, user));
      if item in CandidatesFrom(db, klass, user, sets) then z[item] == Predict(db, user, klass, item)
      else item in before && z[item] == before[item]
  {
    var temp := TempSet(cfg.userClass, user);
    var rk := RecommendedSet(klass, user);
    var stored := db.PutSet(temp, db.SUnion(sets));
    var scores := Predictions(db, user, klass, CandidatesFrom(db, klass, user, sets));
    RecommendFromStores(db, cfg, klass, user, sets);
    StoredScoreEntries(stored, cfg, temp, rk, scores, item);
  }

  /** The candidates read back from the temporary set are those of the original state. */
  lemma RecommendFromStores(db: Db, cfg: Config, klass: string, user: string, sets: seq<SetKey>)
    ensures var stored := db.PutSet(TempSet(cfg.userClass, user), db.SUnion(sets));
      RecommendFrom(db, cfg, klass, user, sets) ==
      StoreScores(stored, cfg, TempSet(cfg.userClass, user), RecommendedSet(klass, user),
        Predictions(db, user, klass, CandidatesFrom(db, klass, user, sets)))
  {
    var temp := TempSet(cfg.userClass, user);
    var stored := db.PutSet(temp, db.SUnion(sets));
    var items := CandidatesFrom(db, klass, user, sets);
    SUnionFrame(db, RatedSets(klass, user), temp, db.SUnion(sets));
    assert stored.Members(temp) - stored.SUnion(RatedSets(klass, user)) == items;
    assert stored.ZGet(SimilaritySet(user)) == db.ZGet(SimilaritySet(user));
    forall i ensures stored.Members(GemdBySet(klass, i)) == db.Members(GemdBySet(klass, i)) { }
    forall i ensures stored.Members(DisgemdBySet(klass, i)) == db.Members(DisgemdBySet(klass, i)) { }
    PredictionsFrame(stored, db, user, klass, items);
  }

  /** Predictions read only the similarity set and the items' rater sets. */
  lemma PredictionsFrame(d1: Db, d2: Db, user: string, klass: string, items: set<string>)
    requires d1.ZGet(SimilaritySet(user)) == d2.ZGet(SimilaritySet(user))
    requires forall i :: d1.Members(GemdBySet(klass, i)) == d2.Members(GemdBySet(klass, i))
    requires forall i :: d1.Members(DisgemdBySet(klass, i)) == d2.Members(DisgemdBySet(klass, i))
    ensures Predictions(d1, user, klass, items) == Predictions(d2, user, klass, items)
  {
    forall i | i in items
      ensures Predict(d1, user, klass, i) == Predict(d2, user, klass, i)
    {
      PredictFrame(d1, d2, user, klass, i);
    }
  }

  /** After the writes, an entry carries its new score if it has one, and its old score otherwise. */
  lemma StoredScoreEntries(stored: Db, cfg: Config, temp: SetKey, rk: ZKey, scores: map<string, real>, item: string)
    ensures var z := StoreScores(stored, cfg, temp, rk, scores).ZGet(rk);
      item in z ==>
      if item in scores then z[item] == scores[item]
      else item in stored.ZGet(rk) && z[item] == stored.ZGet(rk)[item]
  {
    MergedScores(stored, cfg, temp, rk, scores);
    TrimRecommendationsKeeps(stored.ZGet(rk) + scores, cfg, item);
  }

  /** The recommended set after the writes is the trim of the old set merged with the scores. */
  lemma MergedScores(stored: Db, cfg: Config, temp: SetKey, rk: ZKey, scores: map<string, real>)
    ensures StoreScores(stored, cfg, temp, rk, scores).ZGet(rk) == TrimRecommendations(stored.ZGet(rk) + scores, cfg)
  {
    var added := stored.ZAddAll(rk, scores).Del(temp);
    ZAddAllGet(stored, rk, scores);
    if cfg.recommendationsToStore.Some? {
      var t := TrimRecommendations(added.ZGet(rk), cfg);
      assert StoreScores(stored, cfg, temp, rk, scores) == added.PutZ(rk, t);
    }
  }

  /** The trim only removes entries; the survivors keep their scores. */
  lemma TrimRecommendationsKeeps(z: ZSet, cfg: Config, k: string)
    ensures var t := TrimRecommendations(z, cfg);
      k in t ==> k in z && t[k] == z[k]
  {
    if cfg.recommendationsToStore.Some? {
      RemovedByRankSubset(z, 0, |z| - cfg.recommendationsToStore.value - 1);
    }
  }

  lemma RecommendedEntries(db: Db, cfg: Config, klass: string, user: string, item: string)
    requires RecommendClass(db, cfg, klass, user).Some?
    requires item in RecommendClass(db, cfg, klass, user).value.ZGet(RecommendedSet(klass, user))
    ensures var z := RecommendClass(db, cfg, klass, user).value.ZGet(RecommendedSet(klass, user));
      var before := db.ZGet(RecommendedSet(klass, user));
      if item in Candidates(db, cfg, klass, user) then z[item] == Predict(db, user, klass, item)
      else item in before && z[item] == before[item]
  {
    RecommendFromEntries(db, cfg, klass, user, NeighbourSets(db, cfg, klass, user), item);
  }

  /**
   * With more than `n` members the trim keeps exactly the `n` highest
   * scored, with their scores.
   */
  lemma TrimKeepsTop(z: ZSet, cfg: Config)
    requires cfg.recommendationsToStore.Some? && |z| > cfg.recommendationsToStore.value
    ensures var n := cfg.recommendationsToStore.value;
      var t := TrimRecommendations(z, cfg);
      && (forall k :: k in t <==> k in Ranked(z)[|z| - n..])
      && (forall k :: k in t ==> t[k] == z[k])
      && |t| == n
  {
    var n := cfg.recommendationsToStore.value;
    assert TrimRecommendations(z, cfg) == ZRemRangeByRank(z, 0, |z| - n - 1);
    RemoveBottom(z, n);
  }

  /**
   * With exactly `n` members the stop index is -1, the last rank: the trim
   * removes every recommendation.
   */
  lemma TrimExactlyN(z: ZSet, cfg: Config)
    requires cfg.recommendationsToStore == Some(|z|)
    ensures TrimRecommendations(z, cfg) == map[]
  {
    if |z| > 0 {
      RemoveToEnd(z, 0);
    }
  }

  /** With at most half of `n` members the range resolves to nothing and the set is kept. */
  lemma TrimFewKept(z: ZSet, cfg: Config)
    requires cfg.recommendationsToStore.Some? && 2 * |z| <= cfg.recommendationsToStore.value
    ensures TrimRecommendations(z, cfg) == z
  {
  }

  // ---------------------------------------------------------------------
  // update_score_for
  // ---------------------------------------------------------------------

  /** phat: the share of the item's raters who liked it. */
  function Phat(likes: nat, dislikes: nat): (p: real)
    requires likes + dislikes > 0
    ensures 0.0 <= p <= 1.0
    ensures likes == 0 <==> p == 0.0
    ensures dislikes == 0 <==> p == 1.0
  {
    var n := (likes + dislikes) as real;
    assert likes as real <= n;
    RatioOfSelf(likes + dislikes);
    likes as real / n
  }

  /** z = 1.96, the normal quantile of the Wilson lower bound. */
  const WilsonZ: real := 1.96

  /** The argument of Math.sqrt in the Wilson formula. */
  function Radicand(phat: real, n: nat): (r: real)
    requires n > 0
  {
    (phat * (1.0 - phat) + WilsonZ * WilsonZ / (4 * n) as real) / n as real
  }

  /** For a share in [0, 1] the square root is always defined, so Math::DomainError is never rescued. */
  lemma RadicandPositive(phat: real, n: nat)
    requires n > 0 && 0.0 <= phat <= 1.0
    ensures Radicand(phat, n) > 0.0
  {
    var q := (4 * n) as real;
    ProductNonNegative(phat, 1.0 - phat);
    QuotientPositive(WilsonZ * WilsonZ, q);
    QuotientPositive(phat * (1.0 - phat) + WilsonZ * WilsonZ / q, n as real);
  }

  lemma ProductNonNegative(a: real, b: real)
    requires a >= 0.0 && b >= 0.0
    ensures a * b >= 0.0
  {
  }

  lemma QuotientPositive(a: real, b: real)
    requires a > 0.0 && b > 0.0
    ensures a / b > 0.0
  {
  }

  /** The score written: `cfg.wilson` stands for the Wilson formula; a negative radicand is rescued to 0. */
  function WilsonScore(cfg: Config, phat: real, n: nat): real
    requires n > 0
  {
    if Radicand(phat, n) < 0.0 then 0.0 else cfg.wilson(phat, n)
  }

  /**
   * update_score_for(klass, id): without raters it returns 0.0 (false here)
   * and writes nothing; otherwise it ZADDs the item's Wilson score to the
   * class's score set and returns true.
   */
  function UpdateScore(db: Db, cfg: Config, klass: string, item: string): (bool, Db) {
    var likes := |db.Members(GemdBySet(klass, item))|;
    var dislikes := |db.Members(DisgemdBySet(klass, item))|;
    if likes + dislikes == 0 then (false, db)
    else (true, db.ZAdd(ScoreSet(klass), item, WilsonScore(cfg, Phat(likes, dislikes), likes + dislikes)))
  }

  /**
   * The zero-count guard: the write happens exactly when somebody rated the
   * item, and then the item's entry is the Wilson formula on phat = likes / n.
   */
  lemma UpdateScoreGuard(db: Db, cfg: Config, klass: string, item: string)
    ensures var likes := |db.Members(GemdBySet(klass, item))|;
      var dislikes := |db.Members(DisgemdBySet(klass, item))|;
      var r := UpdateScore(db, cfg, klass, item);
      && (r.0 <==> likes + dislikes > 0)
      && (!r.0 ==> r.1 == db)
      && (r.0 ==>
            && item in r.1.ZGet(ScoreSet(klass))
            && r.1.ZGet(ScoreSet(klass))[item] == cfg.wilson(Phat(likes, dislikes), likes + dislikes))
  {
    var likes := |db.Members(GemdBySet(klass, item))|;
    var dislikes := |db.Members(DisgemdBySet(klass, item))|;
    if likes + dislikes > 0 {
      RadicandPositive(Phat(likes, dislikes), likes + dislikes);
    }
  }

  /** The score update writes one entry of one sorted set and nothing else. */
  lemma UpdateScoreFrame(db: Db, cfg: Config, klass: string, item: string, k: ZKey, other: string)
    ensures var d := UpdateScore(db, cfg, klass, item).1;
      && d.sets == db.sets
      && (k != ScoreSet(klass) ==> d.ZGet(k) == db.ZGet(k))
      && (other != item ==> (other in d.ZGet(ScoreSet(klass)) <==> other in db.ZGet(ScoreSet(klass))))
      && (other != item && other in db.ZGet(ScoreSet(klass)) ==> d.ZGet(ScoreSet(klass))[other] == db.ZGet(ScoreSet(klass))[other])
  {
  }

  /** Recomputing a score that was just computed changes nothing. */
  lemma UpdateScoreIdempotent(db: Db, cfg: Config, klass: string, item: string)
    ensures var r := UpdateScore(db, cfg, klass, item);
      UpdateScore(r.1, cfg, klass, item) == r
  {
    var r := UpdateScore(db, cfg, klass, item);
    if r.0 {
      var z := db.ZGet(ScoreSet(klass));
      var likes := |db.Members(GemdBySet(klass, item))|;
      var dislikes := |db.Members(DisgemdBySet(klass, item))|;
      var x := WilsonScore(cfg, Phat(likes, dislikes), likes + dislikes);
      assert z[item := x][item := x] == z[item := x];
      PutZTwice(db, ScoreSet(klass), z[item := x], z[item := x]);
    }
  }

  /** update_score_for: a method over the store, equal to `UpdateScore`. */
  method UpdateScoreFor(redis: Redis, cfg: Config, klass: string, item: string) returns (scored: bool)
    modifies redis
    ensures (scored, redis.State()) == UpdateScore(old(redis.State()), cfg, klass, item)
  {
    var likes := redis.SCard(GemdBySet(klass, item));
    var dislikes := redis.SCard(DisgemdBySet(klass, item));
    if !(likes + dislikes > 0) {
      return false;
    }
    var n := likes + dislikes;
    var phat := likes as real / n as real;
    var score: real;
    if Radicand(phat, n) < 0.0 {
      score := 0.0;
    } else {
      score := cfg.wilson(phat, n);
    }
    redis.ZAdd(ScoreSet(klass), item, score);
    scored := true;
  }
}
