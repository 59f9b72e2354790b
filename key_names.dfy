/**
 * The structured keys of module Store against the strings of module
 * KeyMapper. Store keeps every key family and every class apart by
 * constructor; the Redis server only sees strings. This module proves the
 * strings are apart as well, under three conditions on the naming: no `:`
 * in a table name or an id, no class whose table is `by` (otherwise
 * `gemd_` + `by` is the relation of an item's `gemd_by` key), and `tableize`
 * one-to-one on the classes in use.
 */
module KeyNames {
  import opened Wrappers
  import opened KeyMapper
  import opened Store

  /** Any key of the store, plain set or sorted set. */
  datatype Key = Plain(s: SetKey) | Sorted(z: ZKey)

  /** The Redis string of each key, through the builders of KeyMapper. */
  function Name(n: Naming, k: Key): string {
    match k
    case Plain(GemdSet(c, u)) => ActionSetFor(n, Gemd, c, u)
    case Plain(DisgemdSet(c, u)) => ActionSetFor(n, Disgemd, c, u)
    case Plain(HiddenSet(c, u)) => ActionSetFor(n, Hidden, c, u)
    case Plain(BookmarkedSet(c, u)) => ActionSetFor(n, Bookmarked, c, u)
    case Plain(GemdBySet(c, i)) => GemdBySetFor(n, c, i)
    case Plain(DisgemdBySet(c, i)) => DisgemdBySetFor(n, c, i)
    case Plain(TempSet(c, i)) => TempSetFor(n, c, i)
    case Sorted(SimilaritySet(u)) => SimilaritySetFor(n, u)
    case Sorted(RecommendedSet(c, u)) => ActionSetFor(n, Recommended, c, u)
    case Sorted(ScoreSet(c)) => ScoreSetFor(n, c)
  }

  /** The last segment of a key with an id. */
  datatype Relation = Rated(a: Action, table: string) | Similarities | GemdBy | DisgemdBy | Temp

  function RelationName(r: Relation): string {
    match r
    case Rated(a, t) => ActionName(a) + "_" + t
    case Similarities => "similarities"
    case GemdBy => "gemd_by"
    case DisgemdBy => "disgemd_by"
    case Temp => "temp"
  }

  /** The segments of a key: table, id and relation, or the table of a score key. */
  datatype Layout = Segments(table: string, id: string, rel: Relation) | Scores(scored: string)

  function LayoutOf(n: Naming, k: Key): Layout {
    var ut := n.tableize(n.userClass);
    match k
    case Plain(GemdSet(c, u)) => Segments(ut, u, Rated(Gemd, n.tableize(c)))
    case Plain(DisgemdSet(c, u)) => Segments(ut, u, Rated(Disgemd, n.tableize(c)))
    case Plain(HiddenSet(c, u)) => Segments(ut, u, Rated(Hidden, n.tableize(c)))
    case Plain(BookmarkedSet(c, u)) => Segments(ut, u, Rated(Bookmarked, n.tableize(c)))
    case Plain(GemdBySet(c, i)) => Segments(n.tableize(c), i, GemdBy)
    case Plain(DisgemdBySet(c, i)) => Segments(n.tableize(c), i, DisgemdBy)
    case Plain(TempSet(c, i)) => Segments(n.tableize(c), i, Temp)
    case Sorted(SimilaritySet(u)) => Segments(ut, u, Similarities)
    case Sorted(RecommendedSet(c, u)) => Segments(ut, u, Rated(Recommended, n.tableize(c)))
    case Sorted(ScoreSet(c)) => Scores(n.tableize(c))
  }

  /** The string a layout is joined into. */
  function Render(ns: Option<string>, l: Layout): string {
    match l
    case Segments(t, id, r) => NamespacePrefix(ns) + (t + ":" + (id + ":" + RelationName(r)))
    case Scores(t) => ns.GetOr("") + ":" + (t + ":" + "scores")
  }

  /** The conditions on the naming, over the classes in use (the user class among them). */
  predicate Separates(n: Naming, classes: set<string>) {
    && n.userClass in classes
    && (forall c :: c in classes ==> ':' !in n.tableize(c) && n.tableize(c) != "by")
    && (forall c1, c2 :: c1 in classes && c2 in classes && n.tableize(c1) == n.tableize(c2) ==> c1 == c2)
  }

  /** The key's class is in use and its id holds no `:`. */
  predicate Within(k: Key, classes: set<string>) {
    match k
    case Plain(GemdSet(c, u)) => c in classes && ':' !in u
    case Plain(DisgemdSet(c, u)) => c in classes && ':' !in u
    case Plain(HiddenSet(c, u)) => c in classes && ':' !in u
    case Plain(BookmarkedSet(c, u)) => c in classes && ':' !in u
    case Plain(GemdBySet(c, i)) => c in classes && ':' !in i
    case Plain(DisgemdBySet(c, i)) => c in classes && ':' !in i
    case Plain(TempSet(c, i)) => c in classes && ':' !in i
    case Sorted(SimilaritySet(u)) => ':' !in u
    case Sorted(RecommendedSet(c, u)) => c in classes && ':' !in u
    case Sorted(ScoreSet(c)) => c in classes
  }

  /** Segments free of `:`, and no rated relation over a table named `by`. */
  predicate Clean(l: Layout) {
    match l
    case Segments(t, id, r) => ':' !in t && ':' !in id && (r.Rated? ==> r.table != "by")
    case Scores(t) => ':' !in t
  }

  /** Every builder renders the key's layout. */
  lemma NameRendersLayout(n: Naming, k: Key)
    ensures Name(n, k) == Render(n.namespace, LayoutOf(n, k))
  {
  }

  /** Two strings split at their first `:` agree on both sides. */
  lemma SplitAtColon(a: string, b: string, c: string, d: string)
    requires ':' !in a && ':' !in c
    requires a + ":" + b == c + ":" + d
    ensures a == c && b == d
  {
    var s := a + ":" + b;
    assert s == c + ":" + d;
    forall j | 0 <= j < |a| ensures s[j] != ':' {
      assert s[j] == a[j] && a[j] in a;
    }
    forall j | 0 <= j < |c| ensures s[j] != ':' {
      assert s[j] == c[j] && c[j] in c;
    }
    assert s[|a|] == ':' && s[|c|] == ':';
    assert |a| == |c|;
    assert a == s[..|a|] && c == s[..|c|];
    assert b == s[|a| + 1..] && d == s[|c| + 1..];
  }

  /** A string with a `:` in it differs from one without. */
  lemma ColonIn(a: string, b: string)
    ensures ':' in a + ":" + b
  {
    assert (a + ":" + b)[|a|] == ':';
  }

  /** Action names differ in their first letter. */
  lemma RatedHead(a: Action, t: string)
    ensures |RelationName(Rated(a, t))| > 0 && RelationName(Rated(a, t))[0] == ActionName(a)[0]
  {
  }

  /** A rated relation names the action and the table back. */
  lemma RatedInjective(a: Action, t: string, b: Action, u: string)
    requires RelationName(Rated(a, t)) == RelationName(Rated(b, u))
    ensures a == b && t == u
  {
    RatedHead(a, t);
    RatedHead(b, u);
    assert a == b;
    CommonPrefix(ActionName(a) + "_", t, u);
  }

  /** `gemd_` or `disgemd_` followed by a table other than `by` is no reverse relation. */
  lemma RatedNotReverse(a: Action, t: string)
    requires t != "by"
    ensures RelationName(Rated(a, t)) != "gemd_by"
    ensures RelationName(Rated(a, t)) != "disgemd_by"
  {
    RatedHead(a, t);
    if a == Gemd && RelationName(Rated(a, t)) == "gemd_by" {
      assert "gemd_by" == "gemd_" + "by";
      CommonPrefix("gemd_", t, "by");
    }
    if a == Disgemd && RelationName(Rated(a, t)) == "disgemd_by" {
      assert "disgemd_by" == "disgemd_" + "by";
      CommonPrefix("disgemd_", t, "by");
    }
  }

  /** Relations name themselves uniquely, and none is `scores`. */
  lemma RelationInjective(r1: Relation, r2: Relation)
    requires r1.Rated? ==> r1.table != "by"
    requires r2.Rated? ==> r2.table != "by"
    ensures RelationName(r1) == RelationName(r2) ==> r1 == r2
    ensures RelationName(r1) != "scores"
  {
    if r1.Rated? {
      RatedHead(r1.a, r1.table);
      RatedNotReverse(r1.a, r1.table);
    }
    if r2.Rated? {
      RatedHead(r2.a, r2.table);
      RatedNotReverse(r2.a, r2.table);
    }
    if r1.Rated? && r2.Rated? && RelationName(r1) == RelationName(r2) {
      RatedInjective(r1.a, r1.table, r2.a, r2.table);
    }
  }

  /** With no namespace a key with an id has a first segment, a score key an empty one. */
  lemma NoNamespaceNotScores(t: string, id: string, rel: string, s: string)
    requires ':' !in t && ':' !in id && ':' !in s && rel != "scores"
    ensures t + ":" + (id + ":" + rel) != "" + ":" + (s + ":" + "scores")
  {
    if t + ":" + (id + ":" + rel) == "" + ":" + (s + ":" + "scores") {
      SplitAtColon(t, id + ":" + rel, "", s + ":" + "scores");
      SplitAtColon(id, rel, s, "scores");
    }
  }

  /** Under a namespace a key with an id has one more segment than a score key. */
  lemma NamespaceNotScores(p: string, t: string, id: string, rel: string, s: string)
    requires ':' !in t && ':' !in s
    ensures p + ":" + (t + ":" + (id + ":" + rel)) != p + ":" + (s + ":" + "scores")
  {
    if p + ":" + (t + ":" + (id + ":" + rel)) == p + ":" + (s + ":" + "scores") {
      CommonPrefix(p + ":", t + ":" + (id + ":" + rel), s + ":" + "scores");
      SplitAtColon(t, id + ":" + rel, s, "scores");
      ColonIn(id, rel);
    }
  }

  /** A key with an id is never a score key. */
  lemma SegmentsNotScores(ns: Option<string>, t: string, id: string, r: Relation, s: string)
    requires Clean(Segments(t, id, r)) && Clean(Scores(s))
    ensures Render(ns, Segments(t, id, r)) != Render(ns, Scores(s))
  {
    RelationInjective(r, r);
    match ns {
      case None =>
        NoNamespaceNotScores(t, id, RelationName(r), s);
      case Some(p) =>
        NamespaceNotScores(p, t, id, RelationName(r), s);
    }
  }

  /** Clean layouts render to distinct strings. */
  lemma RenderInjective(ns: Option<string>, l1: Layout, l2: Layout)
    requires Clean(l1) && Clean(l2)
    requires Render(ns, l1) == Render(ns, l2)
    ensures l1 == l2
  {
    match l1
    case Segments(t1, i1, r1) =>
      match l2 {
        case Segments(t2, i2, r2) =>
          var p := NamespacePrefix(ns);
          CommonPrefix(p, t1 + ":" + (i1 + ":" + RelationName(r1)), t2 + ":" + (i2 + ":" + RelationName(r2)));
          SplitAtColon(t1, i1 + ":" + RelationName(r1), t2, i2 + ":" + RelationName(r2));
          SplitAtColon(i1, RelationName(r1), i2, RelationName(r2));
          RelationInjective(r1, r2);
        case Scores(s2) =>
          SegmentsNotScores(ns, t1, i1, r1, s2);
      }
    case Scores(s1) =>
      match l2 {
        case Segments(t2, i2, r2) =>
          SegmentsNotScores(ns, t2, i2, r2, s1);
        case Scores(s2) =>
          var g := ns.GetOr("");
          CommonPrefix(g + ":", s1 + ":" + "scores", s2 + ":" + "scores");
          SplitAtColon(s1, "scores", s2, "scores");
      }
  }

  /** Under the conditions, a key's layout is clean. */
  lemma LayoutClean(n: Naming, classes: set<string>, k: Key)
    requires Separates(n, classes) && Within(k, classes)
    ensures Clean(LayoutOf(n, k))
  {
  }

  /** Under the conditions, the layout determines the key. */
  lemma LayoutInjective(n: Naming, classes: set<string>, k1: Key, k2: Key)
    requires Separates(n, classes) && Within(k1, classes) && Within(k2, classes)
    requires LayoutOf(n, k1) == LayoutOf(n, k2)
    ensures k1 == k2
  {
  }

  /**
   * Distinct keys of the store are distinct Redis strings, across families
   * and across classes, whenever the naming separates the classes in use.
   */
  lemma NamesDistinct(n: Naming, classes: set<string>, k1: Key, k2: Key)
    requires Separates(n, classes) && Within(k1, classes) && Within(k2, classes)
    requires k1 != k2
    ensures Name(n, k1) != Name(n, k2)
  {
    NameRendersLayout(n, k1);
    NameRendersLayout(n, k2);
    LayoutClean(n, classes, k1);
    LayoutClean(n, classes, k2);
    if Name(n, k1) == Name(n, k2) {
      RenderInjective(n.namespace, LayoutOf(n, k1), LayoutOf(n, k2));
      LayoutInjective(n, classes, k1, k2);
    }
  }

  /** Without the `by` condition a like of a user's and a user's own gemd_by set share one string. */
  lemma ByTableCollides(n: Naming, klass: string, user: string)
    requires n.tableize(klass) == "by"
    ensures Name(n, Plain(GemdSet(klass, user))) == Name(n, Plain(GemdBySet(n.userClass, user)))
  {
    assert ActionName(Gemd) + "_" + "by" == "gemd_by";
  }

  /** Without `tableize` one-to-one, two classes with one table share their item keys. */
  lemma SharedTableCollides(n: Naming, c1: string, c2: string, id: string)
    requires n.tableize(c1) == n.tableize(c2)
    ensures Name(n, Plain(GemdBySet(c1, id))) == Name(n, Plain(GemdBySet(c2, id)))
    ensures Name(n, Sorted(ScoreSet(c1))) == Name(n, Sorted(ScoreSet(c2)))
  {
  }
}
