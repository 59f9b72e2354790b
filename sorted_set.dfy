/**
 * Redis sorted sets, as the engine uses them: a map from member to score,
 * ranked in ascending order of score and then of member (Redis compares
 * members byte by byte, the shorter first when one is a prefix of the other).
 * Rank-based commands (ZRANGE, ZREVRANGE, ZREMRANGEBYRANK) resolve their
 * start and stop indices the way Redis does: a negative index counts from the
 * end, `length + index`.
 */
module SortedSet {
  import opened Wrappers

  type ZSet = map<string, real>

  /** Lexicographic order on member strings. */
  predicate StrLt(a: string, b: string)
    decreases |a|
  {
    if |a| == 0 then |b| > 0
    else if |b| == 0 then false
    else if a[0] != b[0] then a[0] < b[0]
    else StrLt(a[1..], b[1..])
  }

  lemma {:induction false} StrLtIrreflexive(a: string)
    ensures !StrLt(a, a)
    decreases |a|
  {
    if |a| > 0 { StrLtIrreflexive(a[1..]); }
  }

  lemma {:induction false} StrLtTransitive(a: string, b: string, c: string)
    requires StrLt(a, b) && StrLt(b, c)
    ensures StrLt(a, c)
    decreases |a|
  {
    if |a| > 0 && a[0] == b[0] && b[0] == c[0] {
      StrLtTransitive(a[1..], b[1..], c[1..]);
    }
  }

  lemma {:induction false} StrLtTotal(a: string, b: string)
    ensures a == b || StrLt(a, b) || StrLt(b, a)
    decreases |a|
  {
    if |a| > 0 && |b| > 0 && a[0] == b[0] {
      StrLtTotal(a[1..], b[1..]);
      if a[1..] == b[1..] {
        assert a == [a[0]] + a[1..] && b == [b[0]] + b[1..];
      }
    }
  }

  lemma {:induction false} StrLtAsymmetric(a: string, b: string)
    ensures !(StrLt(a, b) && StrLt(b, a))
  {
    if StrLt(a, b) && StrLt(b, a) {
      StrLtTransitive(a, b, a);
      StrLtIrreflexive(a);
    }
  }

  /** No two strings precede each other. */
  lemma StrLtNoCycle()
    ensures forall a: string, b: string :: StrLt(a, b) ==> !StrLt(b, a)
  {
    forall a: string, b: string | StrLt(a, b) ensures !StrLt(b, a) { StrLtAsymmetric(a, b); }
  }

  /** Member `a` ranks strictly below member `b` in `z`. */
  predicate Before(z: ZSet, a: string, b: string)
    requires a in z && b in z
  {
    z[a] < z[b] || (z[a] == z[b] && StrLt(a, b))
  }

  /** `m` is the least member of `s`. */
  predicate LeastString(s: set<string>, m: string) {
    m in s && forall x :: x in s && x != m ==> StrLt(m, x)
  }

  /** The least member of a set of strings. */
  function MinString(s: set<string>): (m: string)
    requires s != {}
    ensures m in s && forall x :: x in s && x != m ==> StrLt(m, x)
  {
    StrLtNoCycle();
    MinStringExists(s);
    var m :| LeastString(s, m);
    m
  }

  /** The least member is the only member below all the others. */
  lemma MinStringUnique(s: set<string>, m: string)
    requires m in s && forall x :: x in s && x != m ==> StrLt(m, x)
    ensures MinString(s) == m
  {
    var m' := MinString(s);
    if m' != m {
      StrLtAsymmetric(m, m');
    }
  }

  lemma {:induction false} MinStringExists(s: set<string>)
    requires s != {}
    ensures exists m :: LeastString(s, m)
    decreases |s|
  {
    var y :| y in s;
    if s == {y} {
      assert LeastString(s, y);
    } else {
      MinStringExists(s - {y});
      var m :| LeastString(s - {y}, m);
      if StrLt(m, y) {
        assert LeastString(s, m);
      } else {
        StrLtTotal(m, y);
        forall x | x in s && x != y ensures StrLt(y, x) {
          if x != m { StrLtTransitive(y, m, x); }
        }
        assert LeastString(s, y);
      }
    }
  }

  /** `m` is the lowest-ranked member of `z`. */
  predicate LeastKey(z: ZSet, m: string) {
    m in z && forall x :: x in z && x != m ==> Before(z, m, x)
  }

  /** The lowest-ranked member of a non-empty sorted set. */
  function MinKey(z: ZSet): (m: string)
    requires |z| > 0
    ensures m in z && forall x :: x in z && x != m ==> Before(z, m, x)
  {
    StrLtNoCycle();
    MinKeyExists(z);
    var m :| LeastKey(z, m);
    m
  }

  lemma {:induction false} MinKeyExists(z: ZSet)
    requires |z| > 0
    ensures exists m :: LeastKey(z, m)
    decreases |z|
  {
    var y :| y in z;
    var rest := z - {y};
    if z.Keys == {y} {
      assert LeastKey(z, y);
    } else {
      assert |rest| > 0 by {
        var x :| x in z.Keys && x != y;
        assert x in rest.Keys;
      }
      MinKeyExists(rest);
      var m :| LeastKey(rest, m);
      if Before(z, m, y) {
        assert forall x :: x in z && x != m ==> Before(z, m, x) by {
          forall x | x in z && x != m ensures Before(z, m, x) {
            if x != y { assert x in rest && Before(rest, m, x); }
          }
        }
        assert LeastKey(z, m);
      } else {
        StrLtTotal(m, y);
        forall x | x in z && x != y ensures Before(z, y, x) {
          assert x in rest;
          if x != m {
            assert Before(rest, m, x);
            if z[y] == z[m] == z[x] { StrLtTransitive(y, m, x); }
          }
        }
        assert LeastKey(z, y);
      }
    }
  }

  /** `a` and `b` are members of `z` and `a` ranks below `b`. */
  predicate InOrder(z: ZSet, a: string, b: string) {
    a in z && b in z && Before(z, a, b)
  }

  /** `r` lists members of `z` in ascending (score, member) order. */
  predicate Ascending(z: ZSet, r: seq<string>) {
    forall i, j :: 0 <= i < j < |r| ==> InOrder(z, r[i], r[j])
  }

  /**
   * The members of `z` in ascending rank: rank 0 is the lowest score, ties
   * are broken by member. Every member appears once.
   */
  function Ranked(z: ZSet): (r: seq<string>)
    ensures |r| == |z|
    ensures forall k :: k in z <==> k in r
    decreases |z|
  {
    if |z| == 0 then []
    else
      var m := MinKey(z);
      var rest := z - {m};
      assert |rest| == |z| - 1 by { assert rest.Keys == z.Keys - {m}; }
      [m] + Ranked(rest)
  }

  /** The ranking is in ascending (score, member) order. */
  lemma {:induction false} RankedSorted(z: ZSet)
    ensures Ascending(z, Ranked(z))
    decreases |z|
  {
    if |z| > 0 {
      var m := MinKey(z);
      var rest := z - {m};
      assert |rest| == |z| - 1 by { assert rest.Keys == z.Keys - {m}; }
      RankedSorted(rest);
      assert LeastKey(z, m);
      RankedCons(z, m, Ranked(rest), Ranked(z));
    } else {
      assert |Ranked(z)| == 0;
    }
  }

  /** Putting the least member in front of the ranking of the others ranks the whole set. */
  lemma RankedCons(z: ZSet, m: string, tail: seq<string>, r: seq<string>)
    requires r == [m] + tail
    requires LeastKey(z, m)
    requires forall k :: k in z - {m} <==> k in tail
    requires Ascending(z - {m}, tail)
    ensures Ascending(z, r)
  {
    forall i, j | 0 <= i < j < |r| ensures InOrder(z, r[i], r[j]) {
      RankedConsPair(z, m, tail, r, i, j);
    }
  }

  lemma RankedConsPair(z: ZSet, m: string, tail: seq<string>, r: seq<string>, i: int, j: int)
    requires r == [m] + tail && 0 <= i < j < |r|
    requires LeastKey(z, m)
    requires forall k :: k in z - {m} <==> k in tail
    requires Ascending(z - {m}, tail)
    ensures InOrder(z, r[i], r[j])
  {
    var rest := z - {m};
    var b := tail[j - 1];
    assert r[j] == b && b in tail;
    assert b in rest;
    if i > 0 {
      var a := tail[i - 1];
      assert r[i] == a && a in tail;
      assert InOrder(rest, a, b);
      assert rest[a] == z[a] && rest[b] == z[b];
    }
  }

  function Reverse(s: seq<string>): (r: seq<string>)
    ensures |r| == |s|
    ensures forall i :: 0 <= i < |s| ==> r[i] == s[|s| - 1 - i]
  {
    if s == [] then [] else Reverse(s[1..]) + [s[0]]
  }

  /**
   * Redis resolution of a rank range [start, stop] over a set of `len`
   * members: negative indices count from the end; the range is empty when the
   * resolved start is past the resolved stop or past the last rank; a stop past
   * the last rank is clamped. The result, when present, is an inclusive range.
   */
  function Resolve(len: nat, start: int, stop: int): (r: Option<(nat, nat)>)
    ensures r.Some? ==> r.value.0 <= r.value.1 < len
  {
    var s := if start < 0 then len + start else start;
    var e := if stop < 0 then len + stop else stop;
    var s' := if s < 0 then 0 else s;
    if s' > e || s' >= len then None
    else Some((s', if e >= len then len - 1 else e))
  }

  /** ZRANGE z start stop: members by ascending rank. */
  function ZRange(z: ZSet, start: int, stop: int): seq<string> {
    match Resolve(|z|, start, stop)
    case None => []
    case Some((lo, hi)) => Ranked(z)[lo..hi + 1]
  }

  /** ZREVRANGE z start stop: members by descending rank. */
  function ZRevRange(z: ZSet, start: int, stop: int): seq<string> {
    match Resolve(|z|, start, stop)
    case None => []
    case Some((lo, hi)) => Reverse(Ranked(z))[lo..hi + 1]
  }

  /** ZREMRANGEBYRANK z start stop: the set without the members whose rank is in the range. */
  function ZRemRangeByRank(z: ZSet, start: int, stop: int): ZSet {
    match Resolve(|z|, start, stop)
    case None => z
    case Some((lo, hi)) =>
      var r := Ranked(z);
      var gone := set j | lo <= j <= hi :: r[j];
      map k | k in z && k !in gone :: z[k]
  }

  /** ZSCORE z m. */
  function ZScore(z: ZSet, m: string): Option<real> {
    if m in z then Some(z[m]) else None
  }

  /** The members of a sequence, as a set. */
  function Elems(s: seq<string>): set<string> {
    set x | x in s
  }

  predicate Distinct(s: seq<string>) {
    forall i, j :: 0 <= i < j < |s| ==> s[i] != s[j]
  }

  lemma {:induction false} DistinctElemsCard(s: seq<string>)
    requires Distinct(s)
    ensures |Elems(s)| == |s|
  {
    if s != [] {
      assert Distinct(s[1..]) by {
        forall i, j | 0 <= i < j < |s[1..]| ensures s[1..][i] != s[1..][j] {
          assert s[1..][i] == s[i + 1] && s[1..][j] == s[j + 1];
        }
      }
      DistinctElemsCard(s[1..]);
      assert Elems(s) == {s[0]} + Elems(s[1..]);
      assert s[0] !in Elems(s[1..]) by {
        forall j | 0 <= j < |s[1..]| ensures s[1..][j] != s[0] {
          assert s[1..][j] == s[j + 1];
        }
      }
    }
  }

  /** No member is ranked twice. */
  lemma RankedDistinct(z: ZSet)
    ensures Distinct(Ranked(z))
  {
    var r := Ranked(z);
    RankedSorted(z);
    forall i, j | 0 <= i < j < |r| ensures r[i] != r[j] {
      if r[i] == r[j] {
        assert Before(z, r[i], r[j]);
        StrLtIrreflexive(r[i]);
        assert false;
      }
    }
  }

  /** The position of a member in the ranking. */
  lemma RankOf(z: ZSet, k: string) returns (idx: nat)
    requires k in z
    ensures idx < |Ranked(z)| && Ranked(z)[idx] == k
    ensures forall j :: 0 <= j < |Ranked(z)| && Ranked(z)[j] == k ==> j == idx
  {
    RankedDistinct(z);
    var r := Ranked(z);
    idx :| 0 <= idx < |r| && r[idx] == k;
  }

  /** ZREMRANGEBYRANK only deletes: what it keeps, it keeps with the same score. */
  lemma RemovedByRankSubset(z: ZSet, start: int, stop: int)
    ensures var t := ZRemRangeByRank(z, start, stop);
      forall k :: k in t ==> k in z && t[k] == z[k]
  {
  }

  /** ZREMRANGEBYRANK keeps a member exactly when its rank is outside the resolved range. */
  lemma RemovedByRank(z: ZSet, start: int, stop: int, lo: nat, hi: nat)
    requires Resolve(|z|, start, stop) == Some((lo, hi))
    ensures forall idx :: 0 <= idx < |z| ==> (Ranked(z)[idx] in ZRemRangeByRank(z, start, stop) <==> idx < lo || hi < idx)
  {
    var t := ZRemRangeByRank(z, start, stop);
    var r := Ranked(z);
    var gone := set j | lo <= j <= hi :: r[j];
    assert t == map k | k in z && k !in gone :: z[k];
    RankedDistinct(z);
    forall idx | 0 <= idx < |z| ensures r[idx] in t <==> idx < lo || hi < idx {
      if lo <= idx <= hi {
        assert r[idx] in gone;
      } else {
        assert forall j :: lo <= j <= hi ==> r[j] != r[idx];
      }
    }
  }

  /** A set that holds exactly the elements of `r` ranked outside [low, |r| - high - 1] is the two ends of `r`. */
  lemma {:induction false} EndsOfSequence(r: seq<string>, keep: set<string>, low: nat, high: nat)
    requires |r| > low + high && Distinct(r)
    requires forall k :: k in keep ==> k in r
    requires forall idx :: 0 <= idx < |r| ==> (r[idx] in keep <==> idx < low || |r| - high <= idx)
    ensures forall k :: k in keep <==> k in r[..low] + r[|r| - high..]
  {
    var kept := r[..low] + r[|r| - high..];
    assert forall j :: 0 <= j < low ==> kept[j] == r[j];
    assert forall j :: low <= j < |kept| ==> kept[j] == r[j - low + |r| - high];
    forall k ensures k in keep <==> k in kept {
      if k in r {
        var idx :| 0 <= idx < |r| && r[idx] == k;
        if idx < low {
          assert kept[idx] == k;
        } else if |r| - high <= idx {
          assert kept[idx - |r| + high + low] == k;
        } else {
          forall j | 0 <= j < |kept| ensures kept[j] != k {
            if j < low { assert kept[j] == r[j]; } else { assert kept[j] == r[j - low + |r| - high]; }
          }
        }
      } else {
        assert k !in kept;
      }
    }
  }

  /** The members kept by removing the middle ranks are the two ends of the ranking. */
  lemma {:induction false} RemoveMiddleMembers(z: ZSet, low: nat, high: nat)
    requires |z| > low + high
    ensures var t := ZRemRangeByRank(z, low, |z| - high - 1);
      forall k :: k in t <==> k in Ranked(z)[..low] + Ranked(z)[|z| - high..]
  {
    var hi := |z| - high - 1;
    assert Resolve(|z|, low, hi) == Some((low, hi));
    RemovedByRank(z, low, hi, low, hi);
    RemovedByRankSubset(z, low, hi);
    RankedDistinct(z);
    EndsOfSequence(Ranked(z), ZRemRangeByRank(z, low, hi).Keys, low, high);
  }

  /** The two ends of the ranking share no member. */
  lemma {:induction false} EndsDistinct(z: ZSet, low: nat, high: nat)
    requires |z| > low + high
    ensures Distinct(Ranked(z)[..low] + Ranked(z)[|z| - high..])
  {
    var r := Ranked(z);
    var kept := r[..low] + r[|z| - high..];
    RankedDistinct(z);
    forall i, j | 0 <= i < j < |kept| ensures kept[i] != kept[j] {
      var i' := if i < low then i else i - low + |z| - high;
      var j' := if j < low then j else j - low + |z| - high;
      assert kept[i] == r[i'] && kept[j] == r[j'] && i' < j';
    }
  }

  /**
   * Removing ranks [low, |z| - high - 1] from a set of more than low + high
   * members keeps exactly the `low` lowest-ranked and the `high`
   * highest-ranked members, with their scores.
   */
  lemma {:induction false} RemoveMiddle(z: ZSet, low: nat, high: nat)
    requires |z| > low + high
    ensures var t := ZRemRangeByRank(z, low, |z| - high - 1);
      && (forall k :: k in t <==> k in Ranked(z)[..low] || k in Ranked(z)[|z| - high..])
      && (forall k :: k in t ==> t[k] == z[k])
      && |t| == low + high
  {
    var r := Ranked(z);
    var t := ZRemRangeByRank(z, low, |z| - high - 1);
    var kept := r[..low] + r[|z| - high..];
    RemovedByRankSubset(z, low, |z| - high - 1);
    RemoveMiddleMembers(z, low, high);
    EndsDistinct(z, low, high);
    assert t.Keys == Elems(kept);
    DistinctElemsCard(kept);
    assert |t| == |t.Keys| == |kept| == low + high;
  }

  /** Removing the ranks below the top `high` keeps exactly the `high` highest-ranked members. */
  lemma RemoveBottom(z: ZSet, high: nat)
    requires |z| > high
    ensures var t := ZRemRangeByRank(z, 0, |z| - high - 1);
      && (forall k :: k in t <==> k in Ranked(z)[|z| - high..])
      && (forall k :: k in t ==> t[k] == z[k])
      && |t| == high
  {
    RemoveMiddle(z, 0, high);
    assert Ranked(z)[..0] == [];
  }

  /**
   * A stop index of -1 resolves to the last rank, so removing ranks
   * [low, -1] keeps only the `low` lowest-ranked members.
   */
  lemma {:induction false} RemoveToEnd(z: ZSet, low: nat)
    requires low < |z|
    ensures forall k :: k in ZRemRangeByRank(z, low, -1) <==> k in Ranked(z)[..low]
  {
    assert Resolve(|z|, low, -1) == Some((low, |z| - 1));
    RemovedByRank(z, low, -1, low, |z| - 1);
    RemovedByRankSubset(z, low, -1);
    RankedDistinct(z);
    EndsOfSequence(Ranked(z), ZRemRangeByRank(z, low, -1).Keys, low, 0);
    assert Ranked(z)[..low] + Ranked(z)[|z| - 0..] == Ranked(z)[..low];
  }

  /**
   * ZRANGE z 0 (n-1) and ZREVRANGE z 0 (n-1) return the first n members of
   * the ascending and descending rankings; for n == 0 the stop index is -1,
   * which Redis resolves to the last rank, so the whole ranking comes back.
   */
  lemma RangeFromZero(z: ZSet, n: nat)
    ensures var c := if n == 0 || n > |z| then |z| else n;
      && ZRange(z, 0, n - 1) == Ranked(z)[..c]
      && ZRevRange(z, 0, n - 1) == Reverse(Ranked(z))[..c]
  {
    ResolveFromZero(|z|, n);
  }

  /** The ranks 0 .. n-1 resolve to the first n, or to all of them when n is 0 or too large. */
  lemma ResolveFromZero(len: nat, n: nat)
    ensures Resolve(len, 0, n - 1) == if len == 0 then None else Some((0, (if n == 0 || n > len then len else n) - 1))
  {
  }

  /** `r` lists members of `z` in ascending rank. */
  lemma {:induction false} ReverseDescends(z: ZSet, r: seq<string>)
    requires Ascending(z, r)
    ensures var v := Reverse(r);
      forall i, j :: 0 <= i < j < |v| ==> v[i] in z && v[j] in z && Before(z, v[j], v[i])
  {
    var v := Reverse(r);
    forall i, j | 0 <= i < j < |v| ensures v[i] in z && v[j] in z && Before(z, v[j], v[i]) {
      assert v[i] == r[|r| - 1 - i] && v[j] == r[|r| - 1 - j];
    }
  }

  /** The descending ranking: every member ranks above the members that follow it. */
  lemma {:induction false} RevRankedDescending(z: ZSet)
    ensures var v := Reverse(Ranked(z));
      forall i, j :: 0 <= i < j < |v| ==> v[i] in z && v[j] in z && Before(z, v[j], v[i])
  {
    RankedSorted(z);
    ReverseDescends(z, Ranked(z));
  }

  lemma {:induction false} ReverseKeepsElements(r: seq<string>)
    ensures forall k :: k in Reverse(r) <==> k in r
    ensures Distinct(r) ==> Distinct(Reverse(r))
  {
    var v := Reverse(r);
    forall k ensures k in v <==> k in r {
      if k in r { var idx :| 0 <= idx < |r| && r[idx] == k; assert v[|r| - 1 - idx] == k; }
      if k in v { var idx :| 0 <= idx < |v| && v[idx] == k; assert r[|r| - 1 - idx] == k; }
    }
    if Distinct(r) {
      forall i, j | 0 <= i < j < |v| ensures v[i] != v[j] {
        assert v[i] == r[|r| - 1 - i] && v[j] == r[|r| - 1 - j];
      }
    }
  }

  lemma {:induction false} PrefixDominates(z: ZSet, v: seq<string>, c: nat)
    requires c <= |v| && Distinct(v)
    requires forall k :: k in z <==> k in v
    requires forall i, j :: 0 <= i < j < |v| ==> v[i] in z && v[j] in z && Before(z, v[j], v[i])
    ensures var top := v[..c];
      forall k, i :: k in z && k !in top && 0 <= i < |top| ==> top[i] in z && Before(z, k, top[i])
  {
    var top := v[..c];
    forall k, i | k in z && k !in top && 0 <= i < |top| ensures top[i] in z && Before(z, k, top[i]) {
      assert top[i] == v[i];
      var at :| 0 <= at < |v| && v[at] == k;
      assert forall t :: 0 <= t < c ==> v[..c][t] == v[t];
      assert i < at;
    }
  }

  /** The first c members of a reversed ascending listing outrank every other member. */
  lemma {:induction false} ReversePrefixDominates(z: ZSet, r: seq<string>, c: nat)
    requires c <= |r| && Distinct(r) && Ascending(z, r)
    requires forall k :: k in z <==> k in r
    ensures var top := Reverse(r)[..c];
      forall k, i :: k in z && k !in top && 0 <= i < |top| ==> top[i] in z && Before(z, k, top[i])
  {
    ReverseDescends(z, r);
    ReverseKeepsElements(r);
    PrefixDominates(z, Reverse(r), c);
  }

  /** The first c members of the descending ranking outrank every other member. */
  lemma {:induction false} RevPrefixDominates(z: ZSet, c: nat)
    requires c <= |z|
    ensures var top := Reverse(Ranked(z))[..c];
      forall k, i :: k in z && k !in top && 0 <= i < |top| ==> top[i] in z && Before(z, k, top[i])
  {
    var r := Ranked(z);
    RankedSorted(z);
    RankedDistinct(z);
    assert Ascending(z, r);
    ReversePrefixDominates(z, r, c);
  }
}
