/**
 * The project permission levels of the archive, coarsest first.
 *
 * The enumeration itself lives outside this repository; it is used only
 * through `isPermittedBy` and `toString`.  It is modelled as the ordered
 * enumeration MINIMAL < PROJECT < OBJECT < ELEMENT < SAMPLE < RADIUS <
 * SERIES < VALUES, where A.isPermittedBy(B) holds exactly when A is not
 * finer than B, and `toString` yields the constant's name.
 */
module PermissionLevel {

  datatype Level = MINIMAL | PROJECT | OBJECT | ELEMENT | SAMPLE | RADIUS | SERIES | VALUES

  /** Position of a level in the fixed order, coarsest first. */
  function Rank(l: Level): (r: nat)
    ensures r < 8
  {
    match l
    case MINIMAL => 0
    case PROJECT => 1
    case OBJECT => 2
    case ELEMENT => 3
    case SAMPLE => 4
    case RADIUS => 5
    case SERIES => 6
    case VALUES => 7
  }

  /** `a.isPermittedBy(b)`: a viewer granted `b` may see the `a` layer. */
  predicate IsPermittedBy(a: Level, b: Level)
  {
    Rank(a) <= Rank(b)
  }

  /** The stricter (coarser) of two levels. */
  function Stricter(a: Level, b: Level): (m: Level)
    ensures IsPermittedBy(m, a) && IsPermittedBy(m, b)
    ensures m == a || m == b
  {
    if IsPermittedBy(a, b) then a else b
  }

  /** The enum constants' names. */
  const MINIMAL_NAME: string := "MINIMAL"
  const PROJECT_NAME: string := "PROJECT"
  const OBJECT_NAME: string := "OBJECT"
  const ELEMENT_NAME: string := "ELEMENT"
  const SAMPLE_NAME: string := "SAMPLE"
  const RADIUS_NAME: string := "RADIUS"
  const SERIES_NAME: string := "SERIES"
  const VALUES_NAME: string := "VALUES"

  /** The enum constant's name, as `toString` gives it. */
  function Name(l: Level): string
  {
    match l
    case MINIMAL => MINIMAL_NAME
    case PROJECT => PROJECT_NAME
    case OBJECT => OBJECT_NAME
    case ELEMENT => ELEMENT_NAME
    case SAMPLE => SAMPLE_NAME
    case RADIUS => RADIUS_NAME
    case SERIES => SERIES_NAME
    case VALUES => VALUES_NAME
  }

  /** Ranks are distinct, so the order on levels is antisymmetric. */
  lemma RankInjective(a: Level, b: Level)
    ensures Rank(a) == Rank(b) ==> a == b
  {
  }

  /**
   * `isPermittedBy` is a total order on the levels: reflexive, antisymmetric,
   * transitive and total, with MINIMAL at the bottom and VALUES at the top.
   */
  lemma PermittedByIsTotalOrder(a: Level, b: Level, c: Level)
    ensures IsPermittedBy(a, a)
    ensures IsPermittedBy(a, b) && IsPermittedBy(b, a) ==> a == b
    ensures IsPermittedBy(a, b) && IsPermittedBy(b, c) ==> IsPermittedBy(a, c)
    ensures IsPermittedBy(a, b) || IsPermittedBy(b, a)
    ensures IsPermittedBy(MINIMAL, a) && IsPermittedBy(a, VALUES)
  {
    RankInjective(a, b);
  }

  /** Only VALUES itself permits the VALUES layer. */
  lemma OnlyValuesPermitsValues(l: Level)
    ensures IsPermittedBy(VALUES, l) <==> l == VALUES
  {
  }
}
