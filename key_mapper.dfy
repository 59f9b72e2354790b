/**
 * String keys of the Redis store. Every key is a `:`-joined list of the
 * configured namespace, a table name, an id and a relation. The namespace is
 * optional: every builder except the score key drops a missing namespace;
 * the score key joins it as an empty segment, so the key starts with `:`.
 * `tableize` (class name to table name, `Movie` to `movies`) is a library
 * function and is a parameter here.
 */
module KeyMapper {
  import opened Wrappers

  datatype Naming = Naming(namespace: Option<string>, userClass: string, tableize: string -> string)

  /** The five per-user relations between a user and the items of one class. */
  datatype Action = Gemd | Disgemd | Hidden | Bookmarked | Recommended

  function ActionName(a: Action): (s: string)
    ensures |s| == match a case Gemd => 4 case Disgemd => 7 case Hidden => 6 case Bookmarked => 10 case Recommended => 11
  {
    match a
    case Gemd => "gemd"
    case Disgemd => "disgemd"
    case Hidden => "hidden"
    case Bookmarked => "bookmarked"
    case Recommended => "recommended"
  }

  /** `parts.join(':')`. */
  function Join(parts: seq<string>): (r: string)
    ensures |parts| > 0 ==> parts[0] <= r
  {
    if |parts| == 0 then ""
    else if |parts| == 1 then parts[0]
    else parts[0] + ":" + Join(parts[1..])
  }

  /** `parts.compact`: the missing parts are dropped and the present ones kept. */
  function Compact(parts: seq<Option<string>>): (r: seq<string>)
    ensures |r| <= |parts|
    ensures |r| == |parts| <==> forall i :: 0 <= i < |parts| ==> parts[i].Some?
    ensures forall x :: x in r <==> Some(x) in parts
  {
    if |parts| == 0 then []
    else match parts[0]
      case None => Compact(parts[1..])
      case Some(x) => [x] + Compact(parts[1..])
  }

  /** What a namespace contributes before the next segment once `compact` has run. */
  function NamespacePrefix(ns: Option<string>): string {
    match ns
    case None => ""
    case Some(s) => s + ":"
  }

  /** Compacting three present parts keeps all three. */
  lemma CompactThree(a: string, b: string, c: string)
    ensures Compact([Some(a), Some(b), Some(c)]) == [a, b, c]
  {
    var tail := [Some(a), Some(b), Some(c)];
    assert tail[1..] == [Some(b), Some(c)];
    assert tail[1..][1..] == [Some(c)];
    assert Compact([Some(c)]) == [c];
  }

  /** Joining three parts. */
  lemma JoinThree(a: string, b: string, c: string)
    ensures Join([a, b, c]) == a + ":" + (b + ":" + c)
  {
    assert [a, b, c][1..] == [b, c];
    assert [b, c][1..] == [c];
    assert Join([b, c]) == b + ":" + c;
  }

  /** Joining `[ns, a, b, c].compact` is the namespace prefix followed by `a:b:c`. */
  lemma JoinCompactFour(ns: Option<string>, a: string, b: string, c: string)
    ensures Join(Compact([ns, Some(a), Some(b), Some(c)])) == NamespacePrefix(ns) + (a + ":" + (b + ":" + c))
  {
    var parts := [ns, Some(a), Some(b), Some(c)];
    assert parts[1..] == [Some(a), Some(b), Some(c)];
    CompactThree(a, b, c);
    JoinThree(a, b, c);
    match ns {
      case None =>
        assert Compact(parts) == [a, b, c];
      case Some(s) =>
        assert Compact(parts) == [s] + [a, b, c];
        assert ([s] + [a, b, c])[1..] == [a, b, c];
    }
  }

  /** `namespace:<user table>:id:<action>_<table>`. */
  function ActionSetFor(n: Naming, a: Action, klass: string, id: string): (key: string)
    ensures key == NamespacePrefix(n.namespace) + (n.tableize(n.userClass) + ":" + (id + ":" + (ActionName(a) + "_" + n.tableize(klass))))
  {
    JoinCompactFour(n.namespace, n.tableize(n.userClass), id, ActionName(a) + "_" + n.tableize(klass));
    Join(Compact([n.namespace, Some(n.tableize(n.userClass)), Some(id), Some(ActionName(a) + "_" + n.tableize(klass))]))
  }

  /** `namespace:<user table>:id:similarities`. */
  function SimilaritySetFor(n: Naming, id: string): (key: string)
    ensures key == NamespacePrefix(n.namespace) + (n.tableize(n.userClass) + ":" + (id + ":" + "similarities"))
  {
    JoinCompactFour(n.namespace, n.tableize(n.userClass), id, "similarities");
    Join(Compact([n.namespace, Some(n.tableize(n.userClass)), Some(id), Some("similarities")]))
  }

  /** `namespace:<table>:id:gemd_by`. */
  function GemdBySetFor(n: Naming, klass: string, id: string): (key: string)
    ensures key == NamespacePrefix(n.namespace) + (n.tableize(klass) + ":" + (id + ":" + "gemd_by"))
  {
    JoinCompactFour(n.namespace, n.tableize(klass), id, "gemd_by");
    Join(Compact([n.namespace, Some(n.tableize(klass)), Some(id), Some("gemd_by")]))
  }

  /** `namespace:<table>:id:disgemd_by`. */
  function DisgemdBySetFor(n: Naming, klass: string, id: string): (key: string)
    ensures key == NamespacePrefix(n.namespace) + (n.tableize(klass) + ":" + (id + ":" + "disgemd_by"))
  {
    JoinCompactFour(n.namespace, n.tableize(klass), id, "disgemd_by");
    Join(Compact([n.namespace, Some(n.tableize(klass)), Some(id), Some("disgemd_by")]))
  }

  /** `namespace:<table>:scores`, joined without `compact`: a missing namespace is an empty first segment. */
  function ScoreSetFor(n: Naming, klass: string): (key: string)
    ensures key == n.namespace.GetOr("") + ":" + (n.tableize(klass) + ":" + "scores")
  {
    var parts := [n.namespace.GetOr(""), n.tableize(klass), "scores"];
    assert parts[1..] == [n.tableize(klass), "scores"];
    assert parts[1..][1..] == ["scores"];
    assert Join(parts[1..]) == n.tableize(klass) + ":" + "scores";
    Join(parts)
  }

  /** `namespace:<table>:id:temp`; the engine passes the user class. */
  function TempSetFor(n: Naming, klass: string, id: string): (key: string)
    ensures key == NamespacePrefix(n.namespace) + (n.tableize(klass) + ":" + (id + ":" + "temp"))
  {
    JoinCompactFour(n.namespace, n.tableize(klass), id, "temp");
    Join(Compact([n.namespace, Some(n.tableize(klass)), Some(id), Some("temp")]))
  }

  /** The user-side rating keys of the default configuration: namespace `recommendable`, users rating movies, id 1. */
  lemma DefaultUserKeys(n: Naming)
    requires n.namespace == Some("recommendable") && n.userClass == "User"
    requires n.tableize("User") == "users" && n.tableize("Movie") == "movies"
    ensures ActionSetFor(n, Gemd, "Movie", "1") == "recommendable:users:1:gemd_movies"
    ensures ActionSetFor(n, Disgemd, "Movie", "1") == "recommendable:users:1:disgemd_movies"
    ensures ActionSetFor(n, Hidden, "Movie", "1") == "recommendable:users:1:hidden_movies"
    ensures ActionSetFor(n, Bookmarked, "Movie", "1") == "recommendable:users:1:bookmarked_movies"
  {
    DefaultVoteKeys(n);
    DefaultListKeys(n);
  }

  /** The like and dislike keys of the default configuration. */
  lemma DefaultVoteKeys(n: Naming)
    requires n.namespace == Some("recommendable") && n.userClass == "User"
    requires n.tableize("User") == "users" && n.tableize("Movie") == "movies"
    ensures ActionSetFor(n, Gemd, "Movie", "1") == "recommendable:users:1:gemd_movies"
    ensures ActionSetFor(n, Disgemd, "Movie", "1") == "recommendable:users:1:disgemd_movies"
  {
    var p := "recommendable:users:1:";
    UserPrefix(n, ActionName(Gemd) + "_" + "movies");
    UserPrefix(n, ActionName(Disgemd) + "_" + "movies");
    assert p + ("gemd" + "_" + "movies") == "recommendable:users:1:gemd_movies";
    assert p + ("disgemd" + "_" + "movies") == "recommendable:users:1:disgemd_movies";
  }

  /** The hidden and bookmarked keys of the default configuration. */
  lemma DefaultListKeys(n: Naming)
    requires n.namespace == Some("recommendable") && n.userClass == "User"
    requires n.tableize("User") == "users" && n.tableize("Movie") == "movies"
    ensures ActionSetFor(n, Hidden, "Movie", "1") == "recommendable:users:1:hidden_movies"
    ensures ActionSetFor(n, Bookmarked, "Movie", "1") == "recommendable:users:1:bookmarked_movies"
  {
    var p := "recommendable:users:1:";
    UserPrefix(n, ActionName(Hidden) + "_" + "movies");
    UserPrefix(n, ActionName(Bookmarked) + "_" + "movies");
    assert p + ("hidden" + "_" + "movies") == "recommendable:users:1:hidden_movies";
    assert p + ("bookmarked" + "_" + "movies") == "recommendable:users:1:bookmarked_movies";
  }

  /** The user's recommended, similarity and temporary keys in the default configuration. */
  lemma DefaultUserSortedKeys(n: Naming)
    requires n.namespace == Some("recommendable") && n.userClass == "User"
    requires n.tableize("User") == "users" && n.tableize("Movie") == "movies"
    ensures ActionSetFor(n, Recommended, "Movie", "1") == "recommendable:users:1:recommended_movies"
    ensures SimilaritySetFor(n, "1") == "recommendable:users:1:similarities"
    ensures TempSetFor(n, "User", "1") == "recommendable:users:1:temp"
  {
    var p := "recommendable:users:1:";
    UserPrefix(n, ActionName(Recommended) + "_" + "movies");
    UserPrefix(n, "similarities");
    UserPrefix(n, "temp");
    assert p + ("recommended" + "_" + "movies") == "recommendable:users:1:recommended_movies";
    assert p + "similarities" == "recommendable:users:1:similarities";
    assert p + "temp" == "recommendable:users:1:temp";
  }

  lemma UserPrefix(n: Naming, rel: string)
    requires n.namespace == Some("recommendable") && n.tableize("User") == "users"
    ensures NamespacePrefix(n.namespace) + ("users" + ":" + ("1" + ":" + rel)) == "recommendable:users:1:" + rel
  {
  }

  /** The item-side keys of the default configuration. */
  lemma DefaultItemKeys(n: Naming)
    requires n.namespace == Some("recommendable")
    requires n.tableize("Movie") == "movies"
    ensures GemdBySetFor(n, "Movie", "1") == "recommendable:movies:1:gemd_by"
  {
    ItemPrefix(n, "gemd_by");
  }

  lemma DefaultItemDislikeKey(n: Naming)
    requires n.namespace == Some("recommendable")
    requires n.tableize("Movie") == "movies"
    ensures DisgemdBySetFor(n, "Movie", "1") == "recommendable:movies:1:disgemd_by"
  {
    ItemPrefix(n, "disgemd_by");
  }

  /** The score key of the default configuration. */
  lemma DefaultScoreKey(n: Naming)
    requires n.namespace == Some("recommendable")
    requires n.tableize("Movie") == "movies"
    ensures ScoreSetFor(n, "Movie") == "recommendable:movies:scores"
  {
    assert "recommendable" + ":" + ("movies" + ":" + "scores") == "recommendable:movies:scores";
  }

  lemma ItemPrefix(n: Naming, rel: string)
    requires n.namespace == Some("recommendable") && n.tableize("Movie") == "movies"
    ensures NamespacePrefix(n.namespace) + ("movies" + ":" + ("1" + ":" + rel)) == "recommendable:movies:1:" + rel
  {
  }

  /** With a namespace, every compacted key is the namespace, a `:`, and the key built without one. */
  lemma {:induction false} NamespaceSegment(n: Naming, ns: string, a: Action, klass: string, id: string)
    requires n.namespace == Some(ns)
    ensures var none := n.(namespace := None);
      && ActionSetFor(n, a, klass, id) == ns + ":" + ActionSetFor(none, a, klass, id)
      && SimilaritySetFor(n, id) == ns + ":" + SimilaritySetFor(none, id)
      && GemdBySetFor(n, klass, id) == ns + ":" + GemdBySetFor(none, klass, id)
      && DisgemdBySetFor(n, klass, id) == ns + ":" + DisgemdBySetFor(none, klass, id)
      && TempSetFor(n, klass, id) == ns + ":" + TempSetFor(none, klass, id)
  {
    var none := n.(namespace := None);
    var ut := n.tableize(n.userClass);
    var t := n.tableize(klass);
    assert none.tableize == n.tableize && none.userClass == n.userClass;
    PrefixSplit(ns, ut + ":" + (id + ":" + (ActionName(a) + "_" + t)));
    PrefixSplit(ns, ut + ":" + (id + ":" + "similarities"));
    PrefixSplit(ns, t + ":" + (id + ":" + "gemd_by"));
    PrefixSplit(ns, t + ":" + (id + ":" + "disgemd_by"));
    PrefixSplit(ns, t + ":" + (id + ":" + "temp"));
  }

  /**
   * The score key is joined without `compact`: with no namespace it keeps an
   * empty first segment and starts with `:`; with one, the namespace goes in
   * front of that `:`.
   */
  lemma ScoreNamespace(n: Naming, klass: string)
    ensures ScoreSetFor(n.(namespace := None), klass)[0] == ':'
    ensures n.namespace.Some? ==> ScoreSetFor(n, klass) == n.namespace.value + ScoreSetFor(n.(namespace := None), klass)
  {
    var t := n.tableize(klass);
    assert ScoreSetFor(n.(namespace := None), klass) == "" + ":" + (t + ":" + "scores");
  }

  lemma PrefixSplit(ns: string, x: string)
    ensures NamespacePrefix(Some(ns)) + x == ns + ":" + (NamespacePrefix(None) + x)
  {
  }

  /** `p + x == p + y` only when `x == y`. */
  lemma CommonPrefix(p: string, x: string, y: string)
    requires p + x == p + y
    ensures x == y
  {
    assert |x| == |y|;
    forall i | 0 <= i < |x| ensures x[i] == y[i] {
      assert x[i] == (p + x)[|p| + i];
      assert y[i] == (p + y)[|p| + i];
    }
  }

  /** `x + s == y + s` only when `x == y`. */
  lemma CommonSuffix(x: string, y: string, s: string)
    requires x + s == y + s
    ensures x == y
  {
    assert |x| == |y|;
    forall i | 0 <= i < |x| ensures x[i] == y[i] {
      assert x[i] == (x + s)[i];
      assert y[i] == (y + s)[i];
    }
  }

  /** `ns + (t + ":" + (id + ":" + rel))` recovers `id` and `rel`. */
  lemma {:induction false} KeyParts(ns: string, t: string, id1: string, rel1: string, id2: string, rel2: string)
    requires ns + (t + ":" + (id1 + ":" + rel1)) == ns + (t + ":" + (id2 + ":" + rel2))
    ensures id1 + ":" + rel1 == id2 + ":" + rel2
    ensures |rel1| == |rel2| ==> id1 == id2 && rel1 == rel2
  {
    CommonPrefix(ns, t + ":" + (id1 + ":" + rel1), t + ":" + (id2 + ":" + rel2));
    CommonPrefix(t + ":", id1 + ":" + rel1, id2 + ":" + rel2);
    if |rel1| == |rel2| {
      var x1, x2 := id1 + ":", id2 + ":";
      assert |x1| == |x2|;
      assert x1 == x2 && rel1 == rel2 by {
        forall i | 0 <= i < |x1| ensures x1[i] == x2[i] {
          assert x1[i] == (x1 + rel1)[i] && x2[i] == (x2 + rel2)[i];
        }
        forall i | 0 <= i < |rel1| ensures rel1[i] == rel2[i] {
          assert rel1[i] == (x1 + rel1)[|x1| + i] && rel2[i] == (x2 + rel2)[|x2| + i];
        }
      }
      CommonSuffix(id1, id2, ":");
    }
  }

  /** For one class and one user, the five action keys are pairwise distinct. */
  lemma {:induction false} ActionKeysDistinct(n: Naming, a: Action, b: Action, klass: string, id: string)
    requires a != b
    ensures ActionSetFor(n, a, klass, id) != ActionSetFor(n, b, klass, id)
  {
    var t := n.tableize(klass);
    if ActionSetFor(n, a, klass, id) == ActionSetFor(n, b, klass, id) {
      KeyParts(NamespacePrefix(n.namespace), n.tableize(n.userClass), id, ActionName(a) + "_" + t, id, ActionName(b) + "_" + t);
      assert false;
    }
  }

  /** With the naming, the class and the relation fixed, distinct ids give distinct keys. */
  lemma {:induction false} KeysInjective(n: Naming, a: Action, klass: string, id1: string, id2: string)
    requires id1 != id2
    ensures ActionSetFor(n, a, klass, id1) != ActionSetFor(n, a, klass, id2)
    ensures SimilaritySetFor(n, id1) != SimilaritySetFor(n, id2)
    ensures GemdBySetFor(n, klass, id1) != GemdBySetFor(n, klass, id2)
    ensures DisgemdBySetFor(n, klass, id1) != DisgemdBySetFor(n, klass, id2)
    ensures TempSetFor(n, klass, id1) != TempSetFor(n, klass, id2)
  {
    var ns := NamespacePrefix(n.namespace);
    var ut := n.tableize(n.userClass);
    var t := n.tableize(klass);
    var rel := ActionName(a) + "_" + t;
    if ActionSetFor(n, a, klass, id1) == ActionSetFor(n, a, klass, id2) {
      KeyParts(ns, ut, id1, rel, id2, rel);
    }
    if SimilaritySetFor(n, id1) == SimilaritySetFor(n, id2) {
      KeyParts(ns, ut, id1, "similarities", id2, "similarities");
    }
    if GemdBySetFor(n, klass, id1) == GemdBySetFor(n, klass, id2) {
      KeyParts(ns, t, id1, "gemd_by", id2, "gemd_by");
    }
    if DisgemdBySetFor(n, klass, id1) == DisgemdBySetFor(n, klass, id2) {
      KeyParts(ns, t, id1, "disgemd_by", id2, "disgemd_by");
    }
    if TempSetFor(n, klass, id1) == TempSetFor(n, klass, id2) {
      KeyParts(ns, t, id1, "temp", id2, "temp");
    }
  }
}
