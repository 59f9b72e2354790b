/**
 * The Redis state the engine reads and writes. Keys are structured: each
 * constructor of `SetKey` and `ZKey` stands for one family of the string keys
 * built in module KeyMapper (`GemdSet(klass, user)` is
 * `ActionSetFor(n, Gemd, klass, user)`, and so on). Module KeyNames proves
 * that distinct keys are distinct strings, under conditions on `tableize`
 * and the ids that it states.
 *
 * Redis never stores an empty set: removing the last member deletes the key,
 * and reading a missing key gives the empty set. `Db` keeps that discipline.
 */
module Store {
  import opened Wrappers
  import opened SortedSet

  /** Keys of plain sets. */
  datatype SetKey =
    | GemdSet(klass: string, user: string)
    | DisgemdSet(klass: string, user: string)
    | HiddenSet(klass: string, user: string)
    | BookmarkedSet(klass: string, user: string)
    | GemdBySet(klass: string, item: string)
    | DisgemdBySet(klass: string, item: string)
    | TempSet(klass: string, id: string)

  /** A ratable record: its class name and id. */
  datatype Item = Item(klass: string, id: string)

  /** Keys of sorted sets. */
  datatype ZKey =
    | SimilaritySet(user: string)
    | RecommendedSet(klass: string, user: string)
    | ScoreSet(klass: string)

  datatype Db = Db(sets: map<SetKey, set<string>>, zsets: map<ZKey, ZSet>) {

    /** SMEMBERS: a missing key reads as the empty set. */
    function Members(k: SetKey): set<string> {
      if k in sets then sets[k] else {}
    }

    /** Store `s` under `k`; the empty set deletes the key. */
    function PutSet(k: SetKey, s: set<string>): (d: Db)
      ensures d.Members(k) == s
      ensures forall k' :: k' != k ==> d.Members(k') == Members(k')
      ensures d.zsets == zsets
    {
      if s == {} then Db(sets - {k}, zsets) else Db(sets[k := s], zsets)
    }

    /** SADD k m. */
    function SAdd(k: SetKey, m: string): Db {
      PutSet(k, Members(k) + {m})
    }

    /** SREM k m. */
    function SRem(k: SetKey, m: string): Db {
      PutSet(k, Members(k) - {m})
    }

    /** DEL k, for a set key. */
    function Del(k: SetKey): Db {
      PutSet(k, {})
    }

    /** SUNION k1 k2 ...: the members of any of the keys. */
    function SUnion(keys: seq<SetKey>): (u: set<string>)
      ensures forall m :: m in u <==> exists i :: 0 <= i < |keys| && m in Members(keys[i])
    {
      if |keys| == 0 then {}
      else
        var rest := SUnion(keys[1..]);
        assert forall i :: 1 <= i < |keys| ==> keys[i] == keys[1..][i - 1];
        Members(keys[0]) + rest
    }

    /** A missing sorted set reads as empty. */
    function ZGet(k: ZKey): ZSet {
      if k in zsets then zsets[k] else map[]
    }

    /** Store `z` under `k`; the empty sorted set deletes the key. */
    function PutZ(k: ZKey, z: ZSet): (d: Db)
      ensures d.ZGet(k) == z
      ensures forall k' :: k' != k ==> d.ZGet(k') == ZGet(k')
      ensures d.sets == sets
    {
      if z == map[] then Db(sets, zsets - {k}) else Db(sets, zsets[k := z])
    }

    /** ZADD k score m: insert `m` or overwrite its score. */
    function ZAdd(k: ZKey, m: string, score: real): Db {
      PutZ(k, ZGet(k)[m := score])
    }

    /** ZADD of every entry of `m`, one command each; none at all when `m` is empty. */
    function ZAddAll(k: ZKey, m: map<string, real>): Db {
      if m == map[] then this else PutZ(k, ZGet(k) + m)
    }

    /** ZREM k m. */
    function ZRem(k: ZKey, m: string): Db {
      PutZ(k, ZGet(k) - {m})
    }
  }

  /** A second write to the same key replaces the first. */
  lemma PutZTwice(db: Db, k: ZKey, a: ZSet, b: ZSet)
    ensures db.PutZ(k, a).PutZ(k, b) == db.PutZ(k, b)
  {
    var z := db.zsets;
    if a == map[] {
      if b == map[] {
        assert (z - {k}) - {k} == z - {k};
      } else {
        assert (z - {k})[k := b] == z[k := b];
      }
    } else {
      if b == map[] {
        assert z[k := a] - {k} == z - {k};
      } else {
        assert z[k := a][k := b] == z[k := b];
      }
    }
  }

  /** One more ZADD extends the batch of ZADDs by one entry. */
  lemma ZAddAllStep(db: Db, k: ZKey, m: map<string, real>, id: string, x: real)
    ensures db.ZAddAll(k, m).ZAdd(k, id, x) == db.ZAddAll(k, m[id := x])
  {
    var z := db.ZGet(k);
    assert id in m[id := x];
    if m == map[] {
      assert m[id := x] == map[id := x];
      assert z[id := x] == z + map[id := x];
    } else {
      assert (z + m)[id := x] == z + m[id := x];
      PutZTwice(db, k, z + m, z + m[id := x]);
    }
  }

  /** The batch of ZADDs merges `m` into the sorted set under `k`. */
  lemma ZAddAllGet(db: Db, k: ZKey, m: map<string, real>)
    ensures db.ZAddAll(k, m).ZGet(k) == db.ZGet(k) + m
  {
    if m == map[] {
      assert db.ZGet(k) + m == db.ZGet(k);
    }
  }

  lemma PutSetTwice(db: Db, k: SetKey, a: set<string>, b: set<string>)
    ensures db.PutSet(k, a).PutSet(k, b) == db.PutSet(k, b)
  {
    var mid := db.PutSet(k, a).sets;
    if b == {} {
      assert mid - {k} == db.sets - {k};
    } else {
      assert mid[k := b] == db.sets[k := b];
    }
  }

  /** Every like is recorded on both sides: in the user's gemd set and in the item's gemd_by set. */
  ghost predicate GemdIndexed(db: Db) {
    forall klass, user, item :: item in db.Members(GemdSet(klass, user)) <==> user in db.Members(GemdBySet(klass, item))
  }

  /** Every dislike is recorded on both sides. */
  ghost predicate DisgemdIndexed(db: Db) {
    forall klass, user, item :: item in db.Members(DisgemdSet(klass, user)) <==> user in db.Members(DisgemdBySet(klass, item))
  }

  ghost predicate ReverseIndexed(db: Db) {
    GemdIndexed(db) && DisgemdIndexed(db)
  }

  /** No user both likes and dislikes the same item. */
  ghost predicate Exclusive(db: Db) {
    forall klass, user, item :: !(item in db.Members(GemdSet(klass, user)) && item in db.Members(DisgemdSet(klass, user)))
  }

  /** The invariants read only the plain sets. */
  lemma InvariantsOfSets(d1: Db, d2: Db)
    requires d1.sets == d2.sets
    ensures ReverseIndexed(d1) <==> ReverseIndexed(d2)
    ensures Exclusive(d1) <==> Exclusive(d2)
  {
    assert forall k :: d1.Members(k) == d2.Members(k);
  }

  /**
   * The Redis server. Each method is one Redis command; its contract says
   * what the command does to the state, as a function on `Db`.
   */
  class Redis {
    var sets: map<SetKey, set<string>>
    var zsets: map<ZKey, ZSet>

    constructor ()
      ensures State() == Db(map[], map[])
    {
      sets := map[];
      zsets := map[];
    }

    function State(): Db
      reads this
    {
      Db(sets, zsets)
    }

    method SMembers(k: SetKey) returns (s: set<string>)
      ensures s == State().Members(k)
    {
      s := if k in sets then sets[k] else {};
    }

    method SIsMember(k: SetKey, m: string) returns (b: bool)
      ensures b == (m in State().Members(k))
    {
      var s := SMembers(k);
      b := m in s;
    }

    method SCard(k: SetKey) returns (n: nat)
      ensures n == |State().Members(k)|
    {
      var s := SMembers(k);
      n := |s|;
    }

    method SInter(k1: SetKey, k2: SetKey) returns (s: set<string>)
      ensures s == State().Members(k1) * State().Members(k2)
    {
      var a := SMembers(k1);
      var b := SMembers(k2);
      s := a * b;
    }

    method SUnion(keys: seq<SetKey>) returns (s: set<string>)
      ensures s == State().SUnion(keys)
    {
      s := State().SUnion(keys);
    }

    method SAdd(k: SetKey, m: string)
      modifies this
      ensures State() == old(State()).SAdd(k, m)
    {
      sets := State().SAdd(k, m).sets;
    }

    method SRem(k: SetKey, m: string)
      modifies this
      ensures State() == old(State()).SRem(k, m)
    {
      sets := State().SRem(k, m).sets;
    }

    method Del(k: SetKey)
      modifies this
      ensures State() == old(State()).Del(k)
    {
      sets := State().Del(k).sets;
    }

    /** SUNIONSTORE dest k1 k2 ...: `dest` is overwritten with the union. */
    method SUnionStore(dest: SetKey, keys: seq<SetKey>)
      modifies this
      ensures State() == old(State()).PutSet(dest, old(State()).SUnion(keys))
    {
      sets := State().PutSet(dest, State().SUnion(keys)).sets;
    }

    /** SDIFF k k1 k2 ...: the members of `k` in none of the others. */
    method SDiff(k: SetKey, others: seq<SetKey>) returns (s: set<string>)
      ensures s == State().Members(k) - State().SUnion(others)
    {
      var first := SMembers(k);
      var rest := SUnion(others);
      s := first - rest;
    }

    /** Members of the sets stored under the keys `p` selects: KEYS with a pattern. */
    method SetKeysWhere(p: SetKey -> bool) returns (ks: set<SetKey>)
      ensures ks == set k | k in State().sets && p(k)
    {
      ks := set k | k in sets && p(k);
    }

    method ZKeysWhere(p: ZKey -> bool) returns (ks: set<ZKey>)
      ensures ks == set k | k in State().zsets && p(k)
    {
      ks := set k | k in zsets && p(k);
    }

    method ZCard(k: ZKey) returns (n: nat)
      ensures n == |State().ZGet(k)|
    {
      n := |State().ZGet(k)|;
    }

    method ZScore(k: ZKey, m: string) returns (s: Option<real>)
      ensures s == SortedSet.ZScore(State().ZGet(k), m)
    {
      s := SortedSet.ZScore(State().ZGet(k), m);
    }

    method ZRange(k: ZKey, start: int, stop: int) returns (r: seq<string>)
      ensures r == SortedSet.ZRange(State().ZGet(k), start, stop)
    {
      r := SortedSet.ZRange(State().ZGet(k), start, stop);
    }

    method ZRevRange(k: ZKey, start: int, stop: int) returns (r: seq<string>)
      ensures r == SortedSet.ZRevRange(State().ZGet(k), start, stop)
    {
      r := SortedSet.ZRevRange(State().ZGet(k), start, stop);
    }

    method ZAdd(k: ZKey, m: string, score: real)
      modifies this
      ensures State() == old(State()).ZAdd(k, m, score)
    {
      zsets := State().ZAdd(k, m, score).zsets;
    }

    method ZRem(k: ZKey, m: string)
      modifies this
      ensures State() == old(State()).ZRem(k, m)
    {
      zsets := State().ZRem(k, m).zsets;
    }

    method ZRemRangeByRank(k: ZKey, start: int, stop: int)
      modifies this
      ensures State() == old(State()).PutZ(k, SortedSet.ZRemRangeByRank(old(State()).ZGet(k), start, stop))
    {
      zsets := State().PutZ(k, SortedSet.ZRemRangeByRank(State().ZGet(k), start, stop)).zsets;
    }
  }
}
