/**
 * The years of the generated time test projects: `createProject` draws an
 * astronomical first year and a span, and `constructTridas` writes each
 * year the historians' way, as a positive year with an AD or BC suffix
 * (there is no year zero: astronomical year 0 is 1 BC).
 */
module TimeTestData {

  datatype Era = AD | BC

  /** A year as the TRiDaS template receives it: a number and its suffix. */
  datatype WrittenYear = WrittenYear(year: int, era: Era)

  /** `constructTridas`: a year up to 0 becomes `-year + 1` BC, a later year stays as it is, AD. */
  function Written(astronomical: int): (w: WrittenYear)
    ensures w.year >= 1
    ensures w.era == BC <==> astronomical <= 0
  {
    if astronomical <= 0 then WrittenYear(-astronomical + 1, BC) else WrittenYear(astronomical, AD)
  }

  /** The astronomical year a written year stands for. */
  function Astronomical(w: WrittenYear): int
  {
    match w.era
    case AD => w.year
    case BC => 1 - w.year
  }

  /** Writing a year loses nothing: it reads back as the same astronomical year. */
  lemma WrittenRoundTrip(astronomical: int)
    ensures Astronomical(Written(astronomical)) == astronomical
  {
  }

  /** Every written year from 1 upwards, in either era, is the writing of exactly one astronomical year. */
  lemma AstronomicalRoundTrip(w: WrittenYear)
    requires w.year >= 1
    ensures Written(Astronomical(w)) == w
  {
  }

  /**
   * Consecutive astronomical years are consecutive written years: a BC year
   * counts down to 1 BC, which is followed by 1 AD (there is no year zero),
   * and AD years count up.
   */
  lemma WrittenSuccessor(astronomical: int)
    ensures var w, next := Written(astronomical), Written(astronomical + 1);
      && (astronomical < 0 ==> w.era == BC && next.era == BC && next.year == w.year - 1)
      && (astronomical == 0 ==> w == WrittenYear(1, BC) && next == WrittenYear(1, AD))
      && (astronomical > 0 ==> w.era == AD && next.era == AD && next.year == w.year + 1)
  {
  }

  /** The first and last year of a generated project, astronomical. */
  datatype YearRange = YearRange(firstYear: int, lastYear: int)

  /**
   * `createProject`: `firstYear = -1500 + randint(0, 3000)` and
   * `lastYear = firstYear + 100 + randint(0, 50)`; the two draws are the
   * parameters (`randint` includes both ends).
   */
  function ProjectYears(draw1: int, draw2: int): (r: YearRange)
    requires 0 <= draw1 <= 3000 && 0 <= draw2 <= 50
    ensures -1500 <= r.firstYear <= 1500
    ensures 100 <= r.lastYear - r.firstYear <= 150
  {
    var firstYear := -1500 + draw1;
    YearRange(firstYear, firstYear + 100 + draw2)
  }

  /** Every range with a first year in [-1500, 1500] and a span in [100, 150] can be drawn. */
  lemma EveryRangeCanBeDrawn(firstYear: int, lastYear: int)
    requires -1500 <= firstYear <= 1500 && 100 <= lastYear - firstYear <= 150
    ensures ProjectYears(firstYear + 1500, lastYear - firstYear - 100) == YearRange(firstYear, lastYear)
  {
  }

  /**
   * In a generated range the last year is after the first, so it is never
   * written BC when the first is written AD, and both written years are at
   * least 1.
   */
  lemma WrittenRangeOrder(draw1: int, draw2: int)
    requires 0 <= draw1 <= 3000 && 0 <= draw2 <= 50
    ensures var r := ProjectYears(draw1, draw2);
      && (Written(r.firstYear).era == AD ==> Written(r.lastYear).era == AD)
      && (Written(r.lastYear).era == BC ==>
            Written(r.firstYear).era == BC && Written(r.firstYear).year > Written(r.lastYear).year)
      && Written(r.firstYear).year >= 1 && Written(r.lastYear).year >= 1
  {
  }
}
