/**
 * The dynamic finders of a rater. `method_missing` reads names such as
 * `gemd_movies_count` or `hidden_movies_ids` against four patterns, tried in
 * a fixed order:
 *
 *   `<rated>_<x>_in_common_with`, `<rated>_<x>_count`, `<rated>_<x>_ids`,
 *   `<action>_<x>`
 *
 * where `<rated>` is gemd, disgemd, hidden or bookmarked, `<action>` is one
 * of those or recommended, and `<x>` is one or more characters other than a
 * newline (Ruby's `.`). The first pattern that matches decides: `<x>` goes
 * through `classify.constantize` and the finder is sent. A NameError in that
 * `send` falls back to the superclass (a NoMethodError) without trying the
 * later patterns. `classify.constantize` is a library call and is the
 * parameter `lookup` here: `None` is its NameError. A NameError raised by the
 * finder itself, once it runs, is not modelled: a found class always gives
 * the `Call`.
 */
module RaterNames {
  import opened Wrappers
  import opened KeyMapper

  /** The four forms, in the order method_missing tries them. */
  datatype Form = InCommonWith | Count | Ids | Plain

  /** What method_missing sends: `<action>_in_common_with`, `_count_for`, `_ids_for` or `_for`, with the class. */
  datatype Call = Call(action: Action, form: Form, klass: string)

  function Suffix(f: Form): string {
    match f
    case InCommonWith => "_in_common_with"
    case Count => "_count"
    case Ids => "_ids"
    case Plain => ""
  }

  /** The method name a caller writes for an action, a form and a class segment. */
  function Render(a: Action, f: Form, x: string): string {
    ActionName(a) + "_" + x + Suffix(f)
  }

  /** Every character matches Ruby's `.`. */
  predicate NoNewline(s: string) {
    forall i :: 0 <= i < |s| ==> s[i] != '\n'
  }

  predicate EndsWith(s: string, t: string) {
    |s| > |t| && s[|s| - |t|..] == t
  }

  /** The class segment itself reads as one of the three suffixed forms. */
  predicate EndsInForm(x: string) {
    EndsWith(x, Suffix(InCommonWith)) || EndsWith(x, Suffix(Count)) || EndsWith(x, Suffix(Ids))
  }

  /** `\A<action>_(.+)<suffix>\z` for one action: the captured middle. */
  function MatchAction(name: string, a: Action, suffix: string): (r: Option<string>)
    ensures r.Some? ==> |r.value| >= 1 && NoNewline(r.value) && name == ActionName(a) + "_" + r.value + suffix
  {
    var p := ActionName(a) + "_";
    if |name| >= |p| + |suffix| + 1 && name[..|p|] == p && name[|name| - |suffix|..] == suffix
       && NoNewline(name[|p|..|name| - |suffix|])
    then
      assert name == name[..|p|] + name[|p|..|name| - |suffix|] + name[|name| - |suffix|..];
      Some(name[|p|..|name| - |suffix|])
    else None
  }

  /** One alternative of the action group, falling back to the next. */
  function Try(name: string, a: Action, suffix: string, orElse: Option<(Action, string)>): Option<(Action, string)> {
    match MatchAction(name, a, suffix)
    case Some(x) => Some((a, x))
    case None => orElse
  }

  /** `((?:dis)?gemd|hidden|bookmarked)` followed by `_(.+)` and the suffix. */
  function MatchRated(name: string, suffix: string): Option<(Action, string)> {
    Try(name, Gemd, suffix, Try(name, Disgemd, suffix, Try(name, Hidden, suffix, Try(name, Bookmarked, suffix, None))))
  }

  /** `((?:dis)?gemd|hidden|bookmarked|recommended)_(.+)`. */
  function MatchPlain(name: string): Option<(Action, string)> {
    Try(name, Gemd, "", Try(name, Disgemd, "", Try(name, Hidden, "", Try(name, Bookmarked, "", Try(name, Recommended, "", None)))))
  }

  /** The class lookup of a matched name: a NameError ends in the superclass. */
  function Resolve(a: Action, f: Form, x: string, lookup: string -> Option<string>): Option<Call> {
    match lookup(x)
    case None => None
    case Some(k) => Some(Call(a, f, k))
  }

  /** The pattern method_missing acts on: the first of the four that matches, with its action and class segment. */
  function MissingMatch(name: string): Option<(Action, Form, string)> {
    var common := MatchRated(name, Suffix(InCommonWith));
    if common.Some? then Some((common.value.0, InCommonWith, common.value.1))
    else
      var count := MatchRated(name, Suffix(Count));
      if count.Some? then Some((count.value.0, Count, count.value.1))
      else
        var ids := MatchRated(name, Suffix(Ids));
        if ids.Some? then Some((ids.value.0, Ids, ids.value.1))
        else
          var plain := MatchPlain(name);
          if plain.Some? then Some((plain.value.0, Plain, plain.value.1))
          else None
  }

  /** method_missing: the call it sends, or `None` for the superclass's NoMethodError. */
  function Classify(name: string, lookup: string -> Option<string>): Option<Call> {
    match MissingMatch(name)
    case None => None
    case Some((a, f, x)) => Resolve(a, f, x, lookup)
  }

  /** The first letters of the action names differ, so at most one alternative can match a name. */
  lemma FirstLetters(a: Action, b: Action)
    requires a != b
    ensures ActionName(a)[0] != ActionName(b)[0]
  {
  }

  /** A rendered name matches its own action and suffix, capturing the class segment. */
  lemma MatchRendered(a: Action, x: string, suffix: string)
    requires |x| >= 1 && NoNewline(x)
    ensures MatchAction(ActionName(a) + "_" + x + suffix, a, suffix) == Some(x)
  {
    var p := ActionName(a) + "_";
    var name := p + x + suffix;
    assert name[..|p|] == p;
    assert name[|name| - |suffix|..] == suffix;
    assert name[|p|..|name| - |suffix|] == x;
  }

  /** A name that starts with one action's prefix matches no other action. */
  lemma MatchOtherAction(a: Action, b: Action, rest: string, suffix: string)
    requires a != b
    ensures MatchAction(ActionName(a) + "_" + rest, b, suffix) == None
  {
    var name := ActionName(a) + "_" + rest;
    if MatchAction(name, b, suffix).Some? {
      var x := MatchAction(name, b, suffix).value;
      assert name[0] == ActionName(b)[0] by {
        assert name == ActionName(b) + "_" + x + suffix;
      }
      assert name[0] == ActionName(a)[0];
      FirstLetters(a, b);
    }
  }

  /** A name ending in one suffix matches no pattern whose suffix ends in another letter. */
  lemma MatchOtherSuffix(a: Action, x: string, f: Form, g: Form)
    requires f != Plain && g != Plain && f != g
    ensures MatchAction(ActionName(a) + "_" + x + Suffix(f), a, Suffix(g)) == None
  {
    var name := ActionName(a) + "_" + x + Suffix(f);
    assert name[|name| - 1] == Suffix(f)[|Suffix(f)| - 1];
  }

  /** Matching a plain name against a suffixed pattern means the class segment ends in that suffix. */
  lemma MatchPlainSuffix(a: Action, x: string, f: Form)
    requires f != Plain
    requires MatchAction(ActionName(a) + "_" + x, a, Suffix(f)).Some?
    ensures EndsWith(x, Suffix(f))
  {
    var p := ActionName(a) + "_";
    var y := MatchAction(p + x, a, Suffix(f)).value;
    assert p + x == p + (y + Suffix(f));
    assert x == y + Suffix(f);
    assert x[|x| - |Suffix(f)|..] == Suffix(f);
  }

  /** Only the patterns tried so far can have matched: a rated action never comes back as `recommended`. */
  lemma MatchRatedAction(name: string, suffix: string)
    ensures MatchRated(name, suffix).Some? ==> MatchRated(name, suffix).value.0 != Recommended
  {
  }

  /** When no other action matches, the rated pattern answers with the one action that does. */
  lemma MatchRatedOnly(name: string, a: Action, suffix: string)
    requires a != Recommended
    requires forall b :: b != a ==> MatchAction(name, b, suffix) == None
    ensures MatchRated(name, suffix) == match MatchAction(name, a, suffix) case Some(x) => Some((a, x)) case None => None
  {
  }

  /** A rendered suffixed name: no action but its own, and no earlier suffix, matches it. */
  lemma MatchRatedRendered(a: Action, x: string, f: Form, g: Form)
    requires a != Recommended && f != Plain && g != Plain
    requires |x| >= 1 && NoNewline(x)
    ensures MatchRated(Render(a, f, x), Suffix(g)) == if f == g then Some((a, x)) else None
  {
    var name := Render(a, f, x);
    assert name == ActionName(a) + "_" + (x + Suffix(f));
    forall b | b != a ensures MatchAction(name, b, Suffix(g)) == None {
      MatchOtherAction(a, b, x + Suffix(f), Suffix(g));
    }
    MatchRatedOnly(name, a, Suffix(g));
    if f == g {
      MatchRendered(a, x, Suffix(f));
    } else {
      MatchOtherSuffix(a, x, f, g);
    }
  }

  /** method_missing reads a rendered suffixed name back as its action, form and class segment. */
  lemma MissingMatchSuffixed(a: Action, f: Form, x: string)
    requires a != Recommended && f != Plain
    requires |x| >= 1 && NoNewline(x)
    ensures MissingMatch(Render(a, f, x)) == Some((a, f, x))
  {
    MatchRatedRendered(a, x, f, InCommonWith);
    MatchRatedRendered(a, x, f, Count);
    MatchRatedRendered(a, x, f, Ids);
  }

  /** No suffixed pattern matches a plain name whose class segment does not end in a suffix. */
  lemma MatchRatedPlain(a: Action, x: string, g: Form)
    requires g != Plain
    requires a == Recommended || !EndsInForm(x)
    ensures MatchRated(Render(a, Plain, x), Suffix(g)) == None
  {
    var name := Render(a, Plain, x);
    assert name == ActionName(a) + "_" + x;
    forall b | b != a ensures MatchAction(name, b, Suffix(g)) == None {
      MatchOtherAction(a, b, x, Suffix(g));
    }
    if a != Recommended {
      MatchRatedOnly(name, a, Suffix(g));
    }
    if a != Recommended && MatchAction(name, a, Suffix(g)).Some? {
      MatchPlainSuffix(a, x, g);
    }
  }

  /** The plain pattern reads a rendered plain name back as its action and class segment. */
  lemma MatchPlainRendered(a: Action, x: string)
    requires |x| >= 1 && NoNewline(x)
    ensures MatchPlain(Render(a, Plain, x)) == Some((a, x))
  {
    var name := Render(a, Plain, x);
    assert name == ActionName(a) + "_" + x + "";
    assert name == ActionName(a) + "_" + x;
    forall b | b != a ensures MatchAction(name, b, "") == None {
      MatchOtherAction(a, b, x, "");
    }
    MatchRendered(a, x, "");
  }

  /** method_missing reads a rendered plain name back, unless its class segment ends in a suffix. */
  lemma MissingMatchPlain(a: Action, x: string)
    requires |x| >= 1 && NoNewline(x)
    requires a == Recommended || !EndsInForm(x)
    ensures MissingMatch(Render(a, Plain, x)) == Some((a, Plain, x))
  {
    MatchRatedPlain(a, x, InCommonWith);
    MatchRatedPlain(a, x, Count);
    MatchRatedPlain(a, x, Ids);
    MatchPlainRendered(a, x);
  }

  /**
   * method_missing reads a rendered name back as its action, form and class,
   * with two exceptions the patterns force: `recommended` only has the plain
   * form, and a plain name whose class segment itself ends in `_count`,
   * `_ids` or `_in_common_with` is taken by the earlier pattern.
   */
  lemma ClassifyRender(a: Action, f: Form, x: string, lookup: string -> Option<string>)
    requires |x| >= 1 && NoNewline(x)
    requires a == Recommended ==> f == Plain
    requires f == Plain && a != Recommended ==> !EndsInForm(x)
    ensures Classify(Render(a, f, x), lookup) == Resolve(a, f, x, lookup)
  {
    if f == Plain {
      MissingMatchPlain(a, x);
    } else {
      MissingMatchSuffixed(a, f, x);
    }
  }

  /** Whatever method_missing dispatches for `recommended` is the plain form. */
  lemma RecommendedOnlyPlain(name: string, lookup: string -> Option<string>)
    ensures Classify(name, lookup).Some? && Classify(name, lookup).value.action == Recommended ==>
      Classify(name, lookup).value.form == Plain
  {
    MatchRatedAction(name, Suffix(InCommonWith));
    MatchRatedAction(name, Suffix(Count));
    MatchRatedAction(name, Suffix(Ids));
  }

  /** The first matching pattern decides: when its class lookup fails, no later pattern is tried. */
  lemma FirstPatternDecides(name: string, lookup: string -> Option<string>)
    requires MatchRated(name, Suffix(InCommonWith)).Some?
    ensures var (a, x) := MatchRated(name, Suffix(InCommonWith)).value;
      Classify(name, lookup) == Resolve(a, InCommonWith, x, lookup)
  {
  }

  /** `recommended_movies_count` is not a count finder: it asks for recommendations of the class `movies_count`. */
  lemma RecommendedCountIsPlain(lookup: string -> Option<string>)
    ensures Classify("recommended_movies_count", lookup) == Resolve(Recommended, Plain, "movies_count", lookup)
  {
    assert Render(Recommended, Plain, "movies_count") == "recommended_movies_count";
    ClassifyRender(Recommended, Plain, "movies_count", lookup);
  }

  // ---------------------------------------------------------------------
  // respond_to?
  // ---------------------------------------------------------------------

  /** The pattern respond_to? looks at: the in_common_with, ids and plain patterns, in that order; no count pattern. */
  function RespondMatch(name: string): Option<(Action, Form, string)> {
    var common := MatchRated(name, Suffix(InCommonWith));
    if common.Some? then Some((common.value.0, InCommonWith, common.value.1))
    else
      var ids := MatchRated(name, Suffix(Ids));
      if ids.Some? then Some((ids.value.0, Ids, ids.value.1))
      else
        var plain := MatchPlain(name);
        if plain.Some? then Some((plain.value.0, Plain, plain.value.1))
        else None
  }

  /**
   * respond_to? as written: whether the class the matched segment looks up
   * is recommendable; a NameError answers false, and a name no pattern
   * matches goes to the superclass, whose answer is `inherited`.
   */
  function RespondsTo(name: string, lookup: string -> Option<string>, recommendable: string -> bool, inherited: bool): bool {
    RespondsFor(RespondMatch(name), lookup, recommendable, inherited)
  }

  /** respond_to? trying the same patterns in the same order as method_missing. */
  function RespondsToCorrected(name: string, lookup: string -> Option<string>, recommendable: string -> bool, inherited: bool): bool {
    RespondsFor(MissingMatch(name), lookup, recommendable, inherited)
  }

  function RespondsFor(hit: Option<(Action, Form, string)>, lookup: string -> Option<string>, recommendable: string -> bool, inherited: bool): bool {
    match hit
    case None => inherited
    case Some((_, _, x)) =>
      match lookup(x)
      case None => false
      case Some(k) => recommendable(k)
  }

  /** A newline-free segment stays newline-free with a suffix appended. */
  lemma NoNewlineAppend(x: string, f: Form)
    requires NoNewline(x)
    ensures NoNewline(x + Suffix(f))
  {
    var y := x + Suffix(f);
    forall i | 0 <= i < |y| ensures y[i] != '\n' {
      if i >= |x| {
        assert y[i] == Suffix(f)[i - |x|];
      }
    }
  }

  /**
   * As written, respond_to? denies every count finder that method_missing
   * serves, unless the segment with `_count` appended happens to name a
   * class: for `gemd_movies_count` it reads the plain pattern, looks up
   * `movies_count` and gets a NameError.
   */
  lemma RespondsToMissesCount(a: Action, x: string, klass: string, lookup: string -> Option<string>)
    requires a != Recommended && |x| >= 1 && NoNewline(x)
    requires lookup(x) == Some(klass) && lookup(x + Suffix(Count)) == None
    ensures Classify(Render(a, Count, x), lookup) == Some(Call(a, Count, klass))
    ensures !RespondsTo(Render(a, Count, x), lookup, k => true, true)
  {
    ClassifyRender(a, Count, x, lookup);
    RespondMatchCount(a, x);
  }

  /** respond_to? reads a count finder with the plain pattern, `_count` and all as the class segment. */
  lemma RespondMatchCount(a: Action, x: string)
    requires a != Recommended && |x| >= 1 && NoNewline(x)
    ensures RespondMatch(Render(a, Count, x)) == Some((a, Plain, x + Suffix(Count)))
  {
    var name := Render(a, Count, x);
    MatchRatedRendered(a, x, Count, InCommonWith);
    MatchRatedRendered(a, x, Count, Ids);
    RenderCountAsPlain(a, x);
    NoNewlineAppend(x, Count);
    MatchPlainRendered(a, x + Suffix(Count));
  }

  lemma RenderCountAsPlain(a: Action, x: string)
    ensures Render(a, Count, x) == Render(a, Plain, x + Suffix(Count))
  {
    assert Suffix(Plain) == [];
  }

  /**
   * Corrected, respond_to? agrees with method_missing whenever every class
   * found is recommendable: true exactly when a call would be dispatched,
   * and the superclass's answer when no pattern matches.
   */
  lemma RespondsToCorrectedAgrees(name: string, lookup: string -> Option<string>, inherited: bool)
    ensures RespondsToCorrected(name, lookup, k => true, inherited) ==
      if MissingMatch(name).None? then inherited else Classify(name, lookup).Some?
  {
  }
}
