/** The table of the eight compass directions that `flipped` scans, in the
    order it scans them (src/util.js). */
module Directions {

  datatype Direction = Direction(dr: int, dc: int)

  /** A unit step to one of the eight neighbours of a square. */
  predicate IsStep(d: Direction) {
    -1 <= d.dr <= 1 && -1 <= d.dc <= 1 && !(d.dr == 0 && d.dc == 0)
  }

  type Step = d: Direction | IsStep(d) witness Direction(0, 1)

  const Table: seq<Step> := [
    Direction(-1, -1), Direction(-1, 0), Direction(-1, 1),
    Direction(0, -1),                    Direction(0, 1),
    Direction(1, -1),  Direction(1, 0),  Direction(1, 1)
  ]

  /** The opposite direction. */
  function Opposite(d: Direction): Direction {
    Direction(-d.dr, -d.dc)
  }

  /** Row-major order of the 3x3 neighbourhood: by row offset, then column offset. */
  predicate Before(d: Direction, e: Direction) {
    d.dr < e.dr || (d.dr == e.dr && d.dc < e.dc)
  }

  /** There are eight entries, each a unit step to a neighbour. */
  lemma TableShape()
    ensures |Table| == 8
    ensures forall i :: 0 <= i < |Table| ==> IsStep(Table[i])
  {
  }

  /** The entries are listed in row-major order of the neighbourhood, so no
      two are equal. */
  lemma TableOrdered()
    ensures forall i, j :: 0 <= i < j < |Table| ==> Before(Table[i], Table[j])
    ensures forall i, j :: 0 <= i < j < |Table| ==> Table[i] != Table[j]
  {
  }

  /** Every neighbour of a square is reached by exactly one entry. */
  lemma TableComplete(d: Direction)
    requires IsStep(d)
    ensures d in Table
  {
  }

  /** Each direction's opposite is listed too, mirrored about the middle. */
  lemma TableClosedUnderNegation()
    ensures forall i :: 0 <= i < |Table| ==> Table[|Table| - 1 - i] == Opposite(Table[i])
  {
  }
}
