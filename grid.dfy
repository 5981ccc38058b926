/**
 * The board as a value: an 8×8 grid of piece bytes indexed [y][x] (row, then file),
 * the accessors the generators use, the raw move primitive, the king lookup,
 * the starting position and the older "rank+file" index codec.
 */
module Grids {
  import opened PieceData
  import opened Pieces
  import opened Coords

  predicate IsGrid(g: seq<seq<Byte>>)
  {
    |g| == 8 && forall y :: 0 <= y < 8 ==> |g[y]| == 8
  }

  type Grid = g: seq<seq<Byte>> | IsGrid(g) witness seq(8, y => seq(8, x => 0 as Byte))

  /** piece_at(c) is grid[c.1][c.0]. */
  function PieceAt(g: Grid, c: Coord): Byte
    requires WithinBounds(c)
  {
    g[c.1][c.0]
  }

  /** is_empty: the kind at c is None. */
  predicate IsEmptyAt(g: Grid, c: Coord)
    requires WithinBounds(c)
  {
    IsEmpty(PieceAt(g, c))
  }

  function ColourAt(g: Grid, c: Coord): Colour
    requires WithinBounds(c)
  {
    GetColour(PieceAt(g, c))
  }

  /**
   * make_pseudo_legal_move: the destination receives the origin's byte unchanged
   * (flags included), then the origin is cleared to 0x00.
   */
  function MakeMove(g: Grid, from: Coord, to: Coord): (r: Grid)
    requires WithinBounds(from) && WithinBounds(to)
    ensures PieceAt(r, from) == 0
    ensures to != from ==> PieceAt(r, to) == PieceAt(g, from)
    ensures forall c :: WithinBounds(c) && c != from && c != to ==> PieceAt(r, c) == PieceAt(g, c)
  {
    var moved := g[to.1 := g[to.1][to.0 := g[from.1][from.0]]];
    moved[from.1 := moved[from.1][from.0 := 0]]
  }

  predicate IsKingOf(g: Grid, colour: Colour, c: Coord)
    requires WithinBounds(c)
  {
    GetType(PieceAt(g, c)) == King && GetColour(PieceAt(g, c)) == colour
  }

  ghost predicate HasKing(g: Grid, colour: Colour)
  {
    exists c :: WithinBounds(c) && IsKingOf(g, colour, c)
  }

  /** The n-th square in reading order: row by row from the top, left to right. */
  function Square(n: int): (c: Coord)
    requires 0 <= n < 64
    ensures WithinBounds(c)
  {
    (n % 8, n / 8)
  }

  /** get_king: the first king of that colour in reading order. */
  function FindKing(g: Grid, colour: Colour): (k: Coord)
    requires HasKing(g, colour)
    ensures WithinBounds(k) && IsKingOf(g, colour, k)
  {
    assert exists m :: 0 <= m < 64 && IsKingOf(g, colour, Square(m)) by {
      var c :| WithinBounds(c) && IsKingOf(g, colour, c);
      assert Square(8 * c.1 + c.0) == c;
    }
    FindKingFrom(g, colour, 0)
  }

  function FindKingFrom(g: Grid, colour: Colour, n: nat): (k: Coord)
    requires n <= 64
    requires exists m :: n <= m < 64 && IsKingOf(g, colour, Square(m))
    ensures WithinBounds(k) && IsKingOf(g, colour, k)
    ensures exists m :: n <= m < 64 && k == Square(m)
    decreases 64 - n
  {
    if IsKingOf(g, colour, Square(n)) then Square(n) else FindKingFrom(g, colour, n + 1)
  }

  /** When a colour has exactly one king, get_king finds that one. */
  lemma FindKingUnique(g: Grid, colour: Colour, k: Coord)
    requires WithinBounds(k) && IsKingOf(g, colour, k)
    requires forall c :: WithinBounds(c) && IsKingOf(g, colour, c) ==> c == k
    ensures FindKing(g, colour) == k
  {
  }

  /** Board::new: the standard starting position. */
  function StartingPosition(): Grid
  {
    [[0x89, 0x05, 0x07, 0x8B, 0x8D, 0x07, 0x05, 0x89],
     [0x83, 0x83, 0x83, 0x83, 0x83, 0x83, 0x83, 0x83],
     [0x00, 0x00, 0x00, 0x00, 0x00, 0x00, 0x00, 0x00],
     [0x00, 0x00, 0x00, 0x00, 0x00, 0x00, 0x00, 0x00],
     [0x00, 0x00, 0x00, 0x00, 0x00, 0x00, 0x00, 0x00],
     [0x00, 0x00, 0x00, 0x00, 0x00, 0x00, 0x00, 0x00],
     [0x82, 0x82, 0x82, 0x82, 0x82, 0x82, 0x82, 0x82],
     [0x88, 0x04, 0x06, 0x8A, 0x8C, 0x06, 0x04, 0x88]]
  }

  /** The back rank, file by file. */
  function BackRankKind(x: int): PieceType
    requires 0 <= x < 8
  {
    [Rook, Knight, Bishop, Queen, King, Bishop, Knight, Rook][x]
  }

  lemma StartingRows(x: int)
    requires 0 <= x < 8
    ensures var g := StartingPosition();
      && g[0][x] == New(Black, BackRankKind(x)) | (if x == 1 || x == 2 || x == 5 || x == 6 then 0 else NotMovedFlag)
      && g[1][x] == New(Black, Pawn) | NotMovedFlag
      && g[2][x] == 0 && g[3][x] == 0 && g[4][x] == 0 && g[5][x] == 0
      && g[6][x] == New(White, Pawn) | NotMovedFlag
      && g[7][x] == New(White, BackRankKind(x)) | (if x == 1 || x == 2 || x == 5 || x == 6 then 0 else NotMovedFlag)
  {
    assert x == 0 || x == 1 || x == 2 || x == 3 || x == 4 || x == 5 || x == 6 || x == 7;
  }

  /** Rows 2..5 are empty; rows 1 and 6 hold the black and white pawns. */
  lemma StartingMiddle(c: Coord)
    requires WithinBounds(c)
    ensures var g := StartingPosition();
      && (2 <= c.1 <= 5 ==> PieceAt(g, c) == 0 && IsEmptyAt(g, c))
      && (c.1 == 1 ==> GetPieceData(PieceAt(g, c)) == (Black, Pawn))
      && (c.1 == 6 ==> GetPieceData(PieceAt(g, c)) == (White, Pawn))
  {
    StartingRows(c.0);
    var b := PieceAt(StartingPosition(), c);
    if c.1 == 1 || c.1 == 6 {
      FlagsInvisible(b, NotMovedFlag);
    }
  }

  /** Back ranks read R N B Q K B N R: black on row 0, white on row 7. */
  lemma StartingBackRanks(x: int)
    requires 0 <= x < 8
    ensures var g := StartingPosition();
      && GetPieceData(g[0][x]) == (Black, BackRankKind(x))
      && GetPieceData(g[7][x]) == (White, BackRankKind(x))
  {
    StartingRows(x);
    FlagsInvisible(New(Black, BackRankKind(x)), NotMovedFlag);
    FlagsInvisible(New(White, BackRankKind(x)), NotMovedFlag);
  }

  /**
   * Flags of the starting pieces: pawns, rooks, queens and kings carry "not yet moved",
   * knights and bishops do not, and nothing is capturable en passant.
   */
  lemma StartingFlags(c: Coord)
    requires WithinBounds(c)
    ensures var b := PieceAt(StartingPosition(), c);
      && b & EnPassantFlag == 0
      && (b & NotMovedFlag == NotMovedFlag <==> GetType(b) in {Pawn, Rook, Queen, King})
  {
    StartingRows(c.0);
    assert c.1 == 0 || c.1 == 1 || c.1 == 2 || c.1 == 3 || c.1 == 4 || c.1 == 5 || c.1 == 6 || c.1 == 7;
    assert c.0 == 0 || c.0 == 1 || c.0 == 2 || c.0 == 3 || c.0 == 4 || c.0 == 5 || c.0 == 6 || c.0 == 7;
  }

  /** Exactly one king per colour: black on e8 = (4, 0), white on e1 = (4, 7). */
  lemma StartingKings(c: Coord)
    requires WithinBounds(c)
    ensures IsKingOf(StartingPosition(), Black, c) <==> c == (4, 0)
    ensures IsKingOf(StartingPosition(), White, c) <==> c == (4, 7)
    ensures IsKingOf(StartingPosition(), Black, (4, 0)) && IsKingOf(StartingPosition(), White, (4, 7))
    ensures HasKing(StartingPosition(), Black) && HasKing(StartingPosition(), White)
    ensures FindKing(StartingPosition(), Black) == (4, 0)
    ensures FindKing(StartingPosition(), White) == (4, 7)
  {
    StartingRows(c.0);
    StartingBackRanks(c.0);
    StartingMiddle(c);
    forall d | WithinBounds(d)
      ensures IsKingOf(StartingPosition(), Black, d) ==> d == (4, 0)
      ensures IsKingOf(StartingPosition(), White, d) ==> d == (4, 7)
    {
      StartingBackRanks(d.0);
      StartingMiddle(d);
    }
    StartingBackRanks(4);
    FindKingUnique(StartingPosition(), Black, (4, 0));
    FindKingUnique(StartingPosition(), White, (4, 7));
  }

  /**
   * convert_str_pos from the older board revision: (56 - byte 1, byte 0 - 97) as unsigned
   * bytes, which is filerank_to_num with its two components swapped.
   */
  function ConvertStrPos(s: string): (p: (int, int))
    requires Decodable(s)
    ensures p == (FileRankToNum(s).1, FileRankToNum(s).0)
    ensures 0 <= p.0 < 256 && 0 <= p.1 < 256
  {
    (56 - s[1] as int, s[0] as int - 97)
  }
}
