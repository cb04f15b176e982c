/**
 * The grid parser of the variant-config loader: a text grid of up to 10 lines,
 * each of up to 9 significant characters, is read into a mask of "iron" squares.
 * Line r stands for rank Rank9 - r (the first line is the top rank) and column c
 * for file FileA + c; a '1' marks the square, any other character leaves it unset.
 */
module IronMask {

  import opened Board

  /** At most this many lines of the grid are read. */
  const IronMaskRanks: nat := 10
  /** At most this many leading characters of each line are read. */
  const IronMaskFiles: nat := 9

  // ---------------------------------------------------------------------------
  // Splitting a stream into lines, as repeated line reads do
  // ---------------------------------------------------------------------------

  /** The index of the first '\n' at or after i, or |s| when there is none. */
  function LineEnd(s: string, i: nat): (j: nat)
    requires i <= |s|
    ensures i <= j <= |s|
    ensures j < |s| ==> s[j] == '\n'
    ensures forall k :: i <= k < j ==> s[k] != '\n'
    decreases |s| - i
  {
    if i == |s| || s[i] == '\n' then i else LineEnd(s, i + 1)
  }

  /** The lines joined back into one text, with a '\n' between each two of them. */
  function JoinLines(lines: seq<string>): (text: string)
    decreases |lines|
  {
    if |lines| == 0 then []
    else if |lines| == 1 then lines[0]
    else lines[0] + "\n" + JoinLines(lines[1..])
  }

  /** The terminator the last line carries: "\n" when the stream ends with one, otherwise nothing. */
  function FinalNewline(s: string): (tail: string)
  {
    if s != [] && s[|s| - 1] == '\n' then "\n" else []
  }

  /**
   * The lines a stream yields when read line by line: each '\n' ends a line,
   * a last line without '\n' still counts, and an empty stream yields no line.
   */
  function SplitLines(s: string): (lines: seq<string>)
    ensures forall i :: 0 <= i < |lines| ==> '\n' !in lines[i]
    ensures s == [] <==> lines == []
    decreases |s|
  {
    if s == [] then []
    else
      var j := LineEnd(s, 0);
      assert forall k :: 0 <= k < j ==> s[..j][k] != '\n';
      if j == |s| then [s] else [s[..j]] + SplitLines(s[j + 1..])
  }

  /** Joining the lines of a stream with '\n' gives back the stream, less one final '\n'. */
  lemma {:induction false} SplitLinesRoundTrip(s: string)
    ensures s == JoinLines(SplitLines(s)) + FinalNewline(s)
    decreases |s|
  {
    if s != [] {
      var j := LineEnd(s, 0);
      if j < |s| {
        var rest := s[j + 1..];
        assert s == s[..j] + "\n" + rest;
        if rest == [] {
          assert SplitLines(s) == [s[..j]];
        } else {
          SplitLinesRoundTrip(rest);
          var lines := SplitLines(s);
          assert lines == [s[..j]] + SplitLines(rest);
          assert lines[1..] == SplitLines(rest);
          assert FinalNewline(rest) == FinalNewline(s);
          assert JoinLines(lines) == s[..j] + "\n" + JoinLines(SplitLines(rest));
        }
      } else {
        assert forall k :: 0 <= k < |s| ==> s[k] != '\n';
        assert FinalNewline(s) == [];
      }
    }
  }

  // ---------------------------------------------------------------------------
  // Specification of the mask
  // ---------------------------------------------------------------------------

  /** The squares marked by the first n characters of `line`, read as grid row `row`. */
  function RowMaskUpTo(line: string, row: int, n: nat): (mask: Bitboard)
    requires n <= |line|
  {
    if n == 0 then {}
    else
      RowMaskUpTo(line, row, n - 1)
      + (if line[n - 1] == '1' then {MakeSquare(FileA + (n - 1), Rank9 - row)} else {})
  }

  /** The squares grid row `row` contributes: only its first min(9, length) characters count. */
  function RowMask(line: string, row: int): (mask: Bitboard)
  {
    RowMaskUpTo(line, row, Min(IronMaskFiles, |line|))
  }

  /** The union of the row masks of the first n lines. */
  function GridMaskUpTo(lines: seq<string>, n: nat): (mask: Bitboard)
    requires n <= |lines|
  {
    if n == 0 then {} else GridMaskUpTo(lines, n - 1) + RowMask(lines[n - 1], n - 1)
  }

  /** The mask a grid denotes: the union of the row masks of its first min(10, #lines) lines. */
  function GridMask(lines: seq<string>): (mask: Bitboard)
  {
    GridMaskUpTo(lines, Min(IronMaskRanks, |lines|))
  }

  /**
   * The square-by-square reading of a grid, independent of the loops: square sq
   * is marked iff its row Rank9 - rank is among the first min(10, #lines) lines,
   * its column file - FileA is among the first min(9, length) characters of that
   * line, and the character there is '1'.
   */
  predicate Marked(lines: seq<string>, sq: Square)
  {
    var row := Rank9 - sq.rank;
    var col := sq.file - FileA;
    0 <= row < Min(IronMaskRanks, |lines|)
    && 0 <= col < Min(IronMaskFiles, |lines[row]|)
    && lines[row][col] == '1'
  }

  /** The significant part of a grid: its first 10 lines, each cut to its first 9 characters. */
  function Significant(lines: seq<string>): (cut: seq<string>)
  {
    seq(Min(IronMaskRanks, |lines|),
        i requires 0 <= i < Min(IronMaskRanks, |lines|) => lines[i][..Min(IronMaskFiles, |lines[i]|)])
  }

  // ---------------------------------------------------------------------------
  // The parser
  // ---------------------------------------------------------------------------

  /**
   * Reads the grid row by row and column by column, adding each square marked
   * '1' to a mask that starts empty; returns exactly the squares the grid marks.
   */
  method ParseIronMask(lines: seq<string>) returns (mask: Bitboard)
    ensures mask == GridMask(lines)
    ensures forall sq :: sq in mask <==> Marked(lines, sq)
  {
    mask := {};
    for row := 0 to Min(IronMaskRanks, |lines|)
      invariant mask == GridMaskUpTo(lines, row)
    {
      var line := lines[row];
      for col := 0 to Min(IronMaskFiles, |line|)
        invariant mask == GridMaskUpTo(lines, row) + RowMaskUpTo(line, row, col)
      {
        if line[col] != '1' {
          continue;
        }
        var sq := MakeSquare(FileA + col, Rank9 - row);  // the first line is the top rank
        mask := mask + {sq};
      }
    }
    forall sq ensures sq in mask <==> Marked(lines, sq) {
      GridMaskMembers(lines, sq);
    }
  }

  // ---------------------------------------------------------------------------
  // Properties of the mask
  // ---------------------------------------------------------------------------

  /** Membership in a row prefix: the rank is the row's, the column is within the prefix and holds '1'. */
  lemma {:induction false} RowMaskUpToMembers(line: string, row: int, n: nat, sq: Square)
    requires n <= |line|
    ensures sq in RowMaskUpTo(line, row, n) <==>
              sq.rank == Rank9 - row && 0 <= sq.file - FileA < n && line[sq.file - FileA] == '1'
  {
    if n > 0 {
      RowMaskUpToMembers(line, row, n - 1, sq);
    }
  }

  /** Membership in the union of the first n rows: the square's row is below n and that row marks it. */
  lemma {:induction false} GridMaskUpToMembers(lines: seq<string>, n: nat, sq: Square)
    requires n <= |lines|
    ensures sq in GridMaskUpTo(lines, n) <==>
              0 <= Rank9 - sq.rank < n && sq in RowMask(lines[Rank9 - sq.rank], Rank9 - sq.rank)
  {
    if n > 0 {
      GridMaskUpToMembers(lines, n - 1, sq);
      var line := lines[n - 1];
      RowMaskUpToMembers(line, n - 1, Min(IronMaskFiles, |line|), sq);
    }
  }

  /** The mask holds exactly the squares the grid marks, square by square. */
  lemma GridMaskMembers(lines: seq<string>, sq: Square)
    ensures sq in GridMask(lines) <==> Marked(lines, sq)
  {
    GridMaskUpToMembers(lines, Min(IronMaskRanks, |lines|), sq);
    var row := Rank9 - sq.rank;
    if 0 <= row < Min(IronMaskRanks, |lines|) {
      RowMaskUpToMembers(lines[row], row, Min(IronMaskFiles, |lines[row]|), sq);
    }
  }

  /** Every marked square lies on the 9 x 10 board: files A to I, ranks 0 to 9. */
  lemma GridMaskOnBoard(lines: seq<string>, sq: Square)
    requires sq in GridMask(lines)
    ensures OnBoard(sq)
  {
    GridMaskMembers(lines, sq);
  }

  /** Accumulation only adds squares: a shorter prefix of rows gives a subset of the mask. */
  lemma {:induction false} GridMaskUpToGrows(lines: seq<string>, m: nat, n: nat)
    requires m <= n <= |lines|
    ensures GridMaskUpTo(lines, m) <= GridMaskUpTo(lines, n)
    decreases n - m
  {
    if m < n {
      GridMaskUpToGrows(lines, m, n - 1);
    }
  }

  /** The mask is the union of the per-row masks of the rows read. */
  lemma GridMaskIsUnionOfRows(lines: seq<string>, sq: Square)
    ensures sq in GridMask(lines) <==>
              exists r :: 0 <= r < Min(IronMaskRanks, |lines|) && sq in RowMask(lines[r], r)
  {
    var n := Min(IronMaskRanks, |lines|);
    GridMaskUpToMembers(lines, n, sq);
    if r :| 0 <= r < n && sq in RowMask(lines[r], r) {
      RowMaskUpToMembers(lines[r], r, Min(IronMaskFiles, |lines[r]|), sq);
    }
  }

  /** Only the significant part of a grid matters: two grids that agree on it give the same mask. */
  lemma GridMaskOnlySignificant(a: seq<string>, b: seq<string>)
    requires Significant(a) == Significant(b)
    ensures GridMask(a) == GridMask(b)
  {
    forall sq ensures sq in GridMask(a) <==> sq in GridMask(b) {
      GridMaskMembers(a, sq);
      GridMaskMembers(b, sq);
      var row := Rank9 - sq.rank;
      if 0 <= row < Min(IronMaskRanks, |a|) {
        assert Significant(a)[row] == Significant(b)[row];
        var col := sq.file - FileA;
        if 0 <= col < Min(IronMaskFiles, |a[row]|) {
          assert a[row][col] == Significant(a)[row][col];
        }
        if 0 <= col < Min(IronMaskFiles, |b[row]|) {
          assert b[row][col] == Significant(b)[row][col];
        }
      }
    }
  }

  /** Lines after the tenth are never read: appending lines to a grid of 10 or more changes nothing. */
  lemma GridMaskIgnoresLinesPastTen(lines: seq<string>, extra: seq<string>)
    requires |lines| >= IronMaskRanks
    ensures GridMask(lines + extra) == GridMask(lines)
  {
    assert Significant(lines + extra) == Significant(lines) by {
      forall i | 0 <= i < IronMaskRanks ensures (lines + extra)[i] == lines[i] { }
    }
    GridMaskOnlySignificant(lines + extra, lines);
  }

  /** Characters past the ninth are never read: extending a line of 9 or more changes nothing. */
  lemma GridMaskIgnoresColumnsPastNine(lines: seq<string>, r: nat, tail: string)
    requires r < |lines| && |lines[r]| >= IronMaskFiles
    ensures GridMask(lines[r := lines[r] + tail]) == GridMask(lines)
  {
    var longer := lines[r := lines[r] + tail];
    assert Significant(longer) == Significant(lines) by {
      assert (lines[r] + tail)[..IronMaskFiles] == lines[r][..IronMaskFiles];
    }
    GridMaskOnlySignificant(longer, lines);
  }

  /** A grid whose first line is "100000000" and whose other nine lines are empty marks only A9. */
  lemma TopLeftCornerGrid()
    ensures GridMask(["100000000", "", "", "", "", "", "", "", "", ""]) == {MakeSquare(FileA, Rank9)}
  {
    var lines := ["100000000", "", "", "", "", "", "", "", "", ""];
    forall sq ensures sq in GridMask(lines) <==> sq == MakeSquare(FileA, Rank9) {
      GridMaskMembers(lines, sq);
      if Marked(lines, sq) {
        assert Rank9 - sq.rank == 0;
        assert forall k :: 1 <= k < 9 ==> lines[0][k] != '1';
      }
    }
  }

  /** A line shorter than 9 characters is read only as far as it goes: "1" marks A9 and nothing else. */
  lemma ShortLineGrid()
    ensures GridMask(["1"]) == {MakeSquare(FileA, Rank9)}
  {
    forall sq ensures sq in GridMask(["1"]) <==> sq == MakeSquare(FileA, Rank9) {
      GridMaskMembers(["1"], sq);
    }
  }
}
