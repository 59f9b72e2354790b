/**
 * The engine's configuration, passed explicitly. The user class's record
 * count (an ORM query) and the Wilson lower-bound formula (floating-point
 * arithmetic) are inputs: `userCount` and `wilson(phat, n)`.
 */
module Configuration {
  import opened Wrappers

  datatype Config = Config(
    userClass: string,
    ratableClasses: seq<string>,
    nearestNeighbors: Option<nat>,
    furthestNeighbors: Option<nat>,
    recommendationsToStore: Option<nat>,
    userCount: nat,
    wilson: (real, nat) -> real)

  /** The number of times `klass` occurs in `classes`. */
  function Occurrences(classes: seq<string>, klass: string): nat {
    if classes == [] then 0
    else Occurrences(classes[..|classes| - 1], klass) + (if classes[|classes| - 1] == klass then 1 else 0)
  }
}
