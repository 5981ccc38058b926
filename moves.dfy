/**
 * Pseudo-legal move generation as functions of the grid: what each per-kind generator
 * returns, in the order its loops push the squares, with the properties the rules promise.
 */
module MoveRules {
  import opened PieceData
  import opened Pieces
  import opened Coords
  import opened Grids
  import opened Scans

  /** The "not yet moved" bit, which allows the pawn's double step. */
  predicate FirstMove(b: Byte)
  {
    b & NotMovedFlag == NotMovedFlag
  }

  // ---------------------------------------------------------------- pawns

  function SinglePush(c: Coord, colour: Colour): Coord
  {
    (c.0, c.1 + PawnDirection(colour))
  }

  function DoublePush(c: Coord, colour: Colour): Coord
  {
    (c.0, c.1 + PawnDirection(colour) * 2)
  }

  /**
   * The push squares are read without a bounds check: the single step always, the double
   * step only when the pawn has not moved and the single step is free.
   */
  predicate PawnPushesOnBoard(g: Grid, c: Coord, colour: Colour, firstMove: bool)
  {
    WithinBounds(SinglePush(c, colour)) &&
    (firstMove && IsEmptyAt(g, SinglePush(c, colour)) ==> WithinBounds(DoublePush(c, colour)))
  }

  /** The single push when its square is empty, then the double push when also allowed. */
  function PawnPushes(g: Grid, c: Coord, colour: Colour, firstMove: bool): (r: seq<Coord>)
    requires PawnPushesOnBoard(g, c, colour, firstMove)
    ensures SinglePush(c, colour) in r <==> IsEmptyAt(g, SinglePush(c, colour))
    ensures DoublePush(c, colour) in r <==>
            firstMove && IsEmptyAt(g, SinglePush(c, colour)) && IsEmptyAt(g, DoublePush(c, colour))
    ensures forall q :: q in r ==> q == SinglePush(c, colour) || q == DoublePush(c, colour)
    ensures r != [] ==> r[0] == SinglePush(c, colour)
    ensures |r| <= 2 && (|r| == 2 ==> r[1] == DoublePush(c, colour))
  {
    var single := SinglePush(c, colour);
    var pushes := if IsEmptyAt(g, single) then [single] else [];
    if firstMove && |pushes| == 1 && IsEmptyAt(g, DoublePush(c, colour))
    then pushes + [DoublePush(c, colour)]
    else pushes
  }

  /** get_pawn_moves: pushes, diagonal captures left then right, and on files d and e the en-passant squares. */
  function PawnMoves(g: Grid, c: Coord, colour: Colour, firstMove: bool): seq<Coord>
    requires PawnPushesOnBoard(g, c, colour, firstMove)
  {
    PawnPushes(g, c, colour, firstMove)
    + PawnDiagonals(g, c, colour, DIRECTIONS, Capture)
    + (if c.0 == 3 || c.0 == 4 then PawnDiagonals(g, c, colour, DIRECTIONS, EnPassant) else [])
  }

  /** One forward diagonal away from c. */
  predicate IsForwardDiagonal(c: Coord, colour: Colour, q: Coord)
  {
    q.1 == c.1 + PawnDirection(colour) && Abs(q.0 - c.0) == 1
  }

  /** A capture: a forward diagonal on the board that holds a piece of the other colour. */
  predicate IsPawnCapture(g: Grid, c: Coord, colour: Colour, q: Coord)
  {
    IsForwardDiagonal(c, colour, q) && WithinBounds(q) && !IsEmptyAt(g, q) && ColourAt(g, q) != colour
  }

  /**
   * An en-passant landing square: an empty forward diagonal whose side neighbour (same file,
   * the pawn's row) carries the 0x20 flag; the neighbour's colour is not looked at.
   */
  predicate IsEnPassantLanding(g: Grid, c: Coord, colour: Colour, q: Coord)
  {
    IsForwardDiagonal(c, colour, q) && WithinBounds(q) && WithinBounds((q.0, c.1))
    && PieceAt(g, (q.0, c.1)) & EnPassantFlag == EnPassantFlag && IsEmptyAt(g, q)
  }

  /** The squares a pawn rule admits over DIRECTIONS, as a predicate on the square. */
  lemma PawnDiagonalsMembership(g: Grid, c: Coord, colour: Colour, rule: PawnRule, q: Coord)
    ensures q in PawnDiagonals(g, c, colour, DIRECTIONS, rule) <==>
            IsForwardDiagonal(c, colour, q) && q in PawnDiagonal(g, c, colour, q.0 - c.0, rule)
  {
    PawnDiagonalsLeftThenRight(g, c, colour, rule, q);
  }

  /** Every square get_pawn_moves returns, and only those. */
  lemma PawnMovesMembership(g: Grid, c: Coord, colour: Colour, firstMove: bool, q: Coord)
    requires PawnPushesOnBoard(g, c, colour, firstMove)
    ensures q in PawnMoves(g, c, colour, firstMove) <==>
            || (q == SinglePush(c, colour) && IsEmptyAt(g, q))
            || (q == DoublePush(c, colour) && firstMove && IsEmptyAt(g, SinglePush(c, colour)) && IsEmptyAt(g, q))
            || IsPawnCapture(g, c, colour, q)
            || ((c.0 == 3 || c.0 == 4) && IsEnPassantLanding(g, c, colour, q))
  {
    PawnDiagonalsMembership(g, c, colour, Capture, q);
    PawnDiagonalsMembership(g, c, colour, EnPassant, q);
  }

  // ---------------------------------------------------------------- knights, kings, sliders

  /** get_knight_moves: the L-shaped jumps on the board that are empty or hold an enemy. */
  function KnightMoves(g: Grid, c: Coord, colour: Colour): seq<Coord>
  {
    Keep(g, Moves(colour), KnightCandidates(c))
  }

  lemma KnightMovesMembership(g: Grid, c: Coord, colour: Colour, q: Coord)
    ensures q in KnightMoves(g, c, colour) <==>
            WithinBounds(q) && IsKnightJump(c, q) && (IsEmptyAt(g, q) || ColourAt(g, q) != colour)
  {
    KeepMembership(g, Moves(colour), KnightCandidates(c), q);
    KnightJumps(c);
  }

  /** The 3×3 block around c in the king's loop order: for row (file step), for col (row step). */
  function KingMoveCandidates(c: Coord): seq<Coord>
  {
    [(c.0 - 1, c.1 - 1), (c.0 - 1, c.1), (c.0 - 1, c.1 + 1),
     (c.0, c.1 - 1), (c.0, c.1), (c.0, c.1 + 1),
     (c.0 + 1, c.1 - 1), (c.0 + 1, c.1), (c.0 + 1, c.1 + 1)]
  }

  /** At most one step along each axis (c itself included). */
  predicate IsNeighbourOrSelf(c: Coord, q: Coord)
  {
    Abs(q.0 - c.0) <= 1 && Abs(q.1 - c.1) <= 1
  }

  /** Entry 3(row + 1) + (col + 1) is (c.0 + row, c.1 + col). */
  lemma KingMoveOrder(c: Coord, row: int, col: int)
    requires -1 <= row <= 1 && -1 <= col <= 1
    ensures KingMoveCandidates(c)[3 * (row + 1) + (col + 1)] == (c.0 + row, c.1 + col)
  {
  }

  /** The nine candidates are exactly the 3×3 block around c. */
  lemma KingMoveBlock(c: Coord)
    ensures forall q :: q in KingMoveCandidates(c) <==> IsNeighbourOrSelf(c, q)
  {
    forall q | IsNeighbourOrSelf(c, q)
      ensures q in KingMoveCandidates(c)
    {
      var i := 3 * (q.0 - c.0 + 1) + (q.1 - c.1 + 1);
      assert KingMoveCandidates(c)[i] == q;
    }
  }

  /** get_king_moves: neighbouring squares on the board that are empty or hold an enemy. */
  function KingMoves(g: Grid, c: Coord, colour: Colour): seq<Coord>
  {
    Keep(g, Moves(colour), KingMoveCandidates(c))
  }

  lemma KingMovesMembership(g: Grid, c: Coord, colour: Colour, q: Coord)
    ensures q in KingMoves(g, c, colour) <==>
            WithinBounds(q) && IsNeighbourOrSelf(c, q) && (IsEmptyAt(g, q) || ColourAt(g, q) != colour)
  {
    KeepMembership(g, Moves(colour), KingMoveCandidates(c), q);
    KingMoveBlock(c);
  }

  /** The king's own square is among the candidates but never among the moves: it holds a friend. */
  lemma KingSkipsOwnSquare(g: Grid, c: Coord)
    requires WithinBounds(c) && !IsEmptyAt(g, c)
    ensures c in KingMoveCandidates(c)
    ensures c !in KingMoves(g, c, ColourAt(g, c))
  {
    KingMovesMembership(g, c, ColourAt(g, c), c);
    KingMoveBlock(c);
  }

  /** get_bishop_moves: the four diagonal rays, friends stopping them before, enemies on, their square. */
  function BishopMoves(g: Grid, c: Coord, colour: Colour): seq<Coord>
  {
    Rays(g, c, colour, BishopDirections, false)
  }

  /** get_rook_moves: the four straight rays, horizontal first. */
  function RookMoves(g: Grid, c: Coord, colour: Colour): seq<Coord>
  {
    Rays(g, c, colour, RookDirections, false)
  }

  /** get_queen_moves: the bishop's list followed by the rook's. */
  function QueenMoves(g: Grid, c: Coord, colour: Colour): seq<Coord>
  {
    BishopMoves(g, c, colour) + RookMoves(g, c, colour)
  }

  /** A square a piece of that colour may land on: on the board, and empty or an enemy. */
  predicate IsOpenTo(g: Grid, colour: Colour, q: Coord)
  {
    WithinBounds(q) && (IsEmptyAt(g, q) || ColourAt(g, q) != colour)
  }

  lemma MoveRayOpen(g: Grid, c: Coord, d: Coord, colour: Colour, q: Coord)
    requires q in Ray(g, c, d, colour, 1, false)
    ensures IsOpenTo(g, colour, q)
  {
    var r := Ray(g, c, d, colour, 1, false);
    var i :| 0 <= i < |r| && r[i] == q;
    if i < |r| - 1 {
      RayInnerEmpty(g, c, d, colour, 1, false);
    } else {
      RayLast(g, c, d, colour, 1, false);
    }
  }

  /** Every square on a move ray along one of dirs is open to the mover. */
  lemma MoveRaysOpen(g: Grid, c: Coord, colour: Colour, dirs: seq<Coord>, q: Coord)
    requires q in Rays(g, c, colour, dirs, false)
    ensures IsOpenTo(g, colour, q)
  {
    RaysMembership(g, c, colour, dirs, false, q);
    var i :| 0 <= i < |dirs| && q in Ray(g, c, dirs[i], colour, 1, false);
    MoveRayOpen(g, c, dirs[i], colour, q);
  }

  /** A square on a ray along d from step 1 is k ≥ 1 steps away along d. */
  lemma RayDistance(g: Grid, c: Coord, d: Coord, colour: Colour, threat: bool, q: Coord)
    requires q in Ray(g, c, d, colour, 1, threat)
    ensures exists k :: 1 <= k <= 8 && q == Step(c, d, k)
  {
    RaySteps(g, c, d, colour, 1, threat);
    var r := Ray(g, c, d, colour, 1, threat);
    var i :| 0 <= i < |r| && r[i] == q;
    assert q == Step(c, d, 1 + i);
  }

  /** k steps along a diagonal direction move k files and k rows; along a straight one, k along one axis. */
  lemma StepGeometry(c: Coord, d: Coord, k: nat)
    requires k >= 1
    ensures d in BishopDirections ==> Abs(Step(c, d, k).0 - c.0) == k && Abs(Step(c, d, k).1 - c.1) == k
    ensures d in RookDirections ==>
            (Step(c, d, k).0 == c.0 || Step(c, d, k).1 == c.1) && Step(c, d, k) != c
  {
    ScaleProduct(d.0, k);
    ScaleProduct(d.1, k);
    if d.0 == -1 {
      assert Step(c, d, k).0 == c.0 - k;
    } else if d.0 == 1 {
      assert Step(c, d, k).0 == c.0 + k;
    }
    if d.1 == -1 {
      assert Step(c, d, k).1 == c.1 - k;
    } else if d.1 == 1 {
      assert Step(c, d, k).1 == c.1 + k;
    }
  }

  /** Bishop squares lie on a diagonal through c, rook squares on its file or row, never c itself. */
  lemma SliderGeometry(g: Grid, c: Coord, colour: Colour, threat: bool, q: Coord)
    ensures q in Rays(g, c, colour, BishopDirections, threat) ==> Abs(q.0 - c.0) == Abs(q.1 - c.1) > 0
    ensures q in Rays(g, c, colour, RookDirections, threat) ==>
            (q.0 == c.0 || q.1 == c.1) && q != c
  {
    if q in Rays(g, c, colour, BishopDirections, threat) {
      RaysMembership(g, c, colour, BishopDirections, threat, q);
      var i :| 0 <= i < 4 && q in Ray(g, c, BishopDirections[i], colour, 1, threat);
      RayDistance(g, c, BishopDirections[i], colour, threat, q);
      var k :| 1 <= k <= 8 && q == Step(c, BishopDirections[i], k);
      StepGeometry(c, BishopDirections[i], k);
    }
    if q in Rays(g, c, colour, RookDirections, threat) {
      RaysMembership(g, c, colour, RookDirections, threat, q);
      var i :| 0 <= i < 4 && q in Ray(g, c, RookDirections[i], colour, 1, threat);
      RayDistance(g, c, RookDirections[i], colour, threat, q);
      var k :| 1 <= k <= 8 && q == Step(c, RookDirections[i], k);
      StepGeometry(c, RookDirections[i], k);
    }
  }

  // ---------------------------------------------------------------- dispatch

  /** What get_pseudo_legal_moves needs: c on the board, and a pawn's push squares on it too. */
  predicate PseudoLegalDefined(g: Grid, c: Coord)
  {
    WithinBounds(c) &&
    (GetType(PieceAt(g, c)) == Pawn ==>
       PawnPushesOnBoard(g, c, ColourAt(g, c), FirstMove(PieceAt(g, c))))
  }

  /** get_pseudo_legal_moves: dispatch on the kind at c; an empty square has no moves. */
  function PseudoLegalMoves(g: Grid, c: Coord): (r: seq<Coord>)
    requires PseudoLegalDefined(g, c)
    ensures IsEmptyAt(g, c) ==> r == []
  {
    var piece := PieceAt(g, c);
    var colour := GetColour(piece);
    match GetType(piece)
    case Pawn => PawnMoves(g, c, colour, FirstMove(piece))
    case Knight => KnightMoves(g, c, colour)
    case Bishop => BishopMoves(g, c, colour)
    case Rook => RookMoves(g, c, colour)
    case Queen => QueenMoves(g, c, colour)
    case King => KingMoves(g, c, colour)
    case None => []
  }

  /**
   * Every pseudo-legal destination is on the board and empty or an enemy; in particular a
   * piece never lists its own square.
   */
  lemma PseudoTargetsOpen(g: Grid, c: Coord, q: Coord)
    requires PseudoLegalDefined(g, c)
    requires q in PseudoLegalMoves(g, c)
    ensures IsOpenTo(g, ColourAt(g, c), q)
    ensures q != c
  {
    var piece := PieceAt(g, c);
    var colour := GetColour(piece);
    match GetType(piece)
    case Pawn =>
      PawnMovesMembership(g, c, colour, FirstMove(piece), q);
    case Knight =>
      KnightMovesMembership(g, c, colour, q);
    case Bishop =>
      MoveRaysOpen(g, c, colour, BishopDirections, q);
    case Rook =>
      MoveRaysOpen(g, c, colour, RookDirections, q);
    case Queen =>
      if q in BishopMoves(g, c, colour) {
        MoveRaysOpen(g, c, colour, BishopDirections, q);
      } else {
        MoveRaysOpen(g, c, colour, RookDirections, q);
      }
    case King =>
      KingMovesMembership(g, c, colour, q);
  }

  /**
   * A pseudo-legal move of a piece of that colour keeps that colour's king on the board:
   * either the king itself moves, or the destination is not the king's square.
   */
  lemma MoveKeepsKing(g: Grid, from: Coord, to: Coord)
    requires WithinBounds(from) && !IsEmptyAt(g, from)
    requires IsOpenTo(g, ColourAt(g, from), to)
    requires HasKing(g, ColourAt(g, from))
    ensures HasKing(MakeMove(g, from, to), ColourAt(g, from))
  {
    var colour := ColourAt(g, from);
    var k :| WithinBounds(k) && IsKingOf(g, colour, k);
    var h := MakeMove(g, from, to);
    if k == from {
      assert to != from;
      assert IsKingOf(h, colour, to);
    } else {
      assert k != to;
      assert IsKingOf(h, colour, k);
    }
  }
}
