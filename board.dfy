/**
 * The board geometry the loader relies on: 9 files (A to I) by 10 ranks (0 to 9).
 * A square is identified by its (file, rank) pair; the engine's packed square index
 * and its 128-bit board mask are not modelled, a mask is a set of squares.
 */
module Board {

  /** Index of the leftmost file, as the engine's file enumeration numbers it. */
  const FileA: int := 0
  /** Index of the top rank, as the engine's rank enumeration numbers it. */
  const Rank9: int := 9

  const FileCount: nat := 9
  const RankCount: nat := 10

  /** A board square; `MakeSquare` is injective by construction. */
  datatype Square = MakeSquare(file: int, rank: int)

  /** A board mask: the set of squares whose bit is set. */
  type Bitboard = set<Square>

  predicate OnBoard(sq: Square)
  {
    FileA <= sq.file < FileA + FileCount && Rank9 - RankCount < sq.rank <= Rank9
  }

  function Min(a: int, b: int): (m: int)
    ensures m <= a && m <= b && (m == a || m == b)
  {
    if a <= b then a else b
  }
}
