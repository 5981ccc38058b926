/**
 * Threat generation as functions of the grid: the squares each piece attacks or defends,
 * the two threat maps built from them, and the check test that reads a map.
 */
module ThreatRules {
  import opened PieceData
  import opened Pieces
  import opened Coords
  import opened Grids
  import opened Scans
  import opened MoveRules

  /** get_pawn_threats: the colour-bit diagonals, then the en-passant diagonals (on every file). */
  function PawnThreats(g: Grid, c: Coord, colour: Colour): seq<Coord>
  {
    PawnDiagonals(g, c, colour, DIRECTIONS, AttackThreat) + PawnDiagonals(g, c, colour, DIRECTIONS, EnPassantThreat)
  }

  /** get_knight_threats: every L-shaped jump on the board, whatever stands there. */
  function KnightThreats(g: Grid, c: Coord): seq<Coord>
  {
    Keep(g, Threats, KnightCandidates(c))
  }

  /** get_bishop_threats: the diagonal rays, each ending on (and including) the first piece. */
  function BishopThreats(g: Grid, c: Coord, colour: Colour): seq<Coord>
  {
    Rays(g, c, colour, BishopDirections, true)
  }

  /** get_rook_threats: the straight rays, each ending on (and including) the first piece. */
  function RookThreats(g: Grid, c: Coord, colour: Colour): seq<Coord>
  {
    Rays(g, c, colour, RookDirections, true)
  }

  /** get_queen_threats: the bishop's list followed by the rook's. */
  function QueenThreats(g: Grid, c: Coord, colour: Colour): seq<Coord>
  {
    BishopThreats(g, c, colour) + RookThreats(g, c, colour)
  }

  /** The 3×3 block around c in the king-threat loop order: for row (row step), for col (file step). */
  function KingThreatCandidates(c: Coord): seq<Coord>
  {
    [(c.0 - 1, c.1 - 1), (c.0, c.1 - 1), (c.0 + 1, c.1 - 1),
     (c.0 - 1, c.1), (c.0, c.1), (c.0 + 1, c.1),
     (c.0 - 1, c.1 + 1), (c.0, c.1 + 1), (c.0 + 1, c.1 + 1)]
  }

  /** Entry 3(row + 1) + (col + 1) is (c.0 + col, c.1 + row). */
  lemma KingThreatOrder(c: Coord, row: int, col: int)
    requires -1 <= row <= 1 && -1 <= col <= 1
    ensures KingThreatCandidates(c)[3 * (row + 1) + (col + 1)] == (c.0 + col, c.1 + row)
  {
  }

  /** The nine candidates are exactly the 3×3 block around c. */
  lemma KingThreatBlock(c: Coord)
    ensures forall q :: q in KingThreatCandidates(c) <==> IsNeighbourOrSelf(c, q)
  {
    forall q | IsNeighbourOrSelf(c, q)
      ensures q in KingThreatCandidates(c)
    {
      var i := 3 * (q.1 - c.1 + 1) + (q.0 - c.0 + 1);
      assert KingThreatCandidates(c)[i] == q;
    }
  }

  /** get_king_threats: the neighbours on the board, the centre square skipped. */
  function KingThreats(g: Grid, c: Coord): seq<Coord>
  {
    Keep(g, ThreatsAround(c), KingThreatCandidates(c))
  }

  /** get_piece_threat_moves: dispatch on the kind of the given piece; a non-piece threatens nothing. */
  function PieceThreats(g: Grid, c: Coord, piece: Byte, colour: Colour): (r: seq<Coord>)
    ensures IsEmpty(piece) ==> r == []
  {
    match GetType(piece)
    case Pawn => PawnThreats(g, c, colour)
    case Knight => KnightThreats(g, c)
    case Bishop => BishopThreats(g, c, colour)
    case Rook => RookThreats(g, c, colour)
    case Queen => QueenThreats(g, c, colour)
    case King => KingThreats(g, c)
    case None => []
  }

  // ---------------------------------------------------------------- per-kind properties

  /**
   * A pawn threatens a forward diagonal on the board when the colour bit there differs from
   * its own, or when the diagonal is empty and the side neighbour is an enemy carrying 0x20.
   */
  lemma PawnThreatsMembership(g: Grid, c: Coord, colour: Colour, q: Coord)
    ensures q in PawnThreats(g, c, colour) <==>
            IsForwardDiagonal(c, colour, q) && WithinBounds(q) &&
            (|| GetColour(PieceAt(g, q)) != colour
             || (WithinBounds((q.0, c.1)) && !IsEmptyAt(g, (q.0, c.1)) && IsEmptyAt(g, q)
                 && ColourAt(g, (q.0, c.1)) != colour && PieceAt(g, (q.0, c.1)) & EnPassantFlag == EnPassantFlag))
  {
    PawnDiagonalsMembership(g, c, colour, AttackThreat, q);
    PawnDiagonalsMembership(g, c, colour, EnPassantThreat, q);
  }

  /**
   * An empty square reads as White: a black pawn threatens every cleared forward diagonal,
   * a white pawn only through the en-passant rule. Push squares are never threatened.
   */
  lemma PawnThreatsOnEmpty(g: Grid, c: Coord, q: Coord)
    requires WithinBounds(q) && PieceAt(g, q) == 0
    ensures IsForwardDiagonal(c, Black, q) ==> q in PawnThreats(g, c, Black)
    ensures q in PawnThreats(g, c, White) <==>
            IsForwardDiagonal(c, White, q) && WithinBounds((q.0, c.1)) && !IsEmptyAt(g, (q.0, c.1))
            && ColourAt(g, (q.0, c.1)) == Black && PieceAt(g, (q.0, c.1)) & EnPassantFlag == EnPassantFlag
    ensures SinglePush(c, White) !in PawnThreats(g, c, White)
    ensures SinglePush(c, Black) !in PawnThreats(g, c, Black)
  {
    PawnThreatsMembership(g, c, Black, q);
    PawnThreatsMembership(g, c, White, q);
    PawnThreatsMembership(g, c, White, SinglePush(c, White));
    PawnThreatsMembership(g, c, Black, SinglePush(c, Black));
  }

  lemma KnightThreatsMembership(g: Grid, c: Coord, q: Coord)
    ensures q in KnightThreats(g, c) <==> WithinBounds(q) && IsKnightJump(c, q)
  {
    KeepMembership(g, Threats, KnightCandidates(c), q);
    KnightJumps(c);
  }

  lemma KingThreatsMembership(g: Grid, c: Coord, q: Coord)
    ensures q in KingThreats(g, c) <==> WithinBounds(q) && IsNeighbourOrSelf(c, q) && q != c
  {
    KeepMembership(g, ThreatsAround(c), KingThreatCandidates(c), q);
    KingThreatBlock(c);
  }

  /** Every square on the move rays along dirs is also on the threat rays along dirs. */
  lemma MoveRaysAreThreatRays(g: Grid, c: Coord, colour: Colour, dirs: seq<Coord>, q: Coord)
    requires q in Rays(g, c, colour, dirs, false)
    ensures q in Rays(g, c, colour, dirs, true)
  {
    RaysMembership(g, c, colour, dirs, false, q);
    RaysMembership(g, c, colour, dirs, true, q);
    var i :| 0 <= i < |dirs| && q in Ray(g, c, dirs[i], colour, 1, false);
    RayMovesPrefixOfThreats(g, c, dirs[i], colour, 1);
    var m, t := Ray(g, c, dirs[i], colour, 1, false), Ray(g, c, dirs[i], colour, 1, true);
    var j :| 0 <= j < |m| && m[j] == q;
    assert t[j] == m[j];
  }

  /** For every kind but the pawn, each pseudo-legal destination is also a threatened square. */
  lemma MovesAreThreats(g: Grid, c: Coord, q: Coord)
    requires PseudoLegalDefined(g, c)
    requires GetType(PieceAt(g, c)) != Pawn
    requires q in PseudoLegalMoves(g, c)
    ensures q in PieceThreats(g, c, PieceAt(g, c), ColourAt(g, c))
  {
    var colour := ColourAt(g, c);
    match GetType(PieceAt(g, c))
    case Knight =>
      KnightMovesMembership(g, c, colour, q);
      KnightThreatsMembership(g, c, q);
    case Bishop =>
      MoveRaysAreThreatRays(g, c, colour, BishopDirections, q);
    case Rook =>
      MoveRaysAreThreatRays(g, c, colour, RookDirections, q);
    case Queen =>
      if q in BishopMoves(g, c, colour) {
        MoveRaysAreThreatRays(g, c, colour, BishopDirections, q);
      } else {
        MoveRaysAreThreatRays(g, c, colour, RookDirections, q);
      }
    case King =>
      PseudoTargetsOpen(g, c, q);
      KingMovesMembership(g, c, colour, q);
      KingThreatsMembership(g, c, q);
  }

  // ---------------------------------------------------------------- threat maps

  /**
   * The n-th square of the map builder's scan: for row (file index) outer, for col (row index)
   * inner, so every eight squares the file index goes up by one.
   */
  function ScanSquare(n: int): (c: Coord)
    requires 0 <= n < 64
    ensures WithinBounds(c) && 8 * c.0 + c.1 == n
  {
    if n < 8 then (0, n) else var p := ScanSquare(n - 8); (p.0 + 1, p.1)
  }

  /** Every square is scanned, at position 8x + y. */
  lemma {:induction false} ScanSquareOf(c: Coord, n: int)
    requires WithinBounds(c) && n == 8 * c.0 + c.1
    ensures 0 <= n < 64 && ScanSquare(n) == c
    decreases c.0
  {
    if c.0 > 0 {
      ScanSquareOf((c.0 - 1, c.1), n - 8);
    }
  }

  function Elements(s: seq<Coord>): (r: set<Coord>)
    ensures forall q :: q in r <==> q in s
  {
    set q | q in s
  }

  /** What the pieces of `colour` among the first n scanned squares put into that colour's map. */
  function ThreatsOfFirst(g: Grid, colour: Colour, n: int): set<Coord>
    requires 0 <= n <= 64
  {
    if n == 0 then {}
    else
      var c := ScanSquare(n - 1);
      ThreatsOfFirst(g, colour, n - 1)
      + (if ColourAt(g, c) == colour then Elements(PieceThreats(g, c, PieceAt(g, c), colour)) else {})
  }

  /**
   * One more scanned square: its piece's threats join the map of its colour bit, and the map
   * of the other colour stays as it was.
   */
  lemma ThreatsOfNext(g: Grid, n: int, c: Coord, piece: Byte, moves: seq<Coord>)
    requires 0 <= n < 64 && ScanSquare(n) == c && piece == PieceAt(g, c)
    requires moves == PieceThreats(g, c, piece, GetColour(piece))
    ensures GetColour(piece) == Black ==>
              ThreatsOfFirst(g, Black, n + 1) == ThreatsOfFirst(g, Black, n) + Elements(moves) &&
              ThreatsOfFirst(g, White, n + 1) == ThreatsOfFirst(g, White, n)
    ensures GetColour(piece) == White ==>
              ThreatsOfFirst(g, White, n + 1) == ThreatsOfFirst(g, White, n) + Elements(moves) &&
              ThreatsOfFirst(g, Black, n + 1) == ThreatsOfFirst(g, Black, n)
  {
  }

  /** The map of `colour` as generate_threat_maps leaves it: the scan over all 64 squares. */
  function ThreatMap(g: Grid, colour: Colour): set<Coord>
  {
    ThreatsOfFirst(g, colour, 64)
  }

  /** The piece of `colour` on c lists q among its threats. */
  predicate Threatens(g: Grid, colour: Colour, c: Coord, q: Coord)
  {
    WithinBounds(c) && ColourAt(g, c) == colour && q in PieceThreats(g, c, PieceAt(g, c), colour)
  }

  /** A square joins the map at scan position n - 1 exactly when the piece scanned there threatens it. */
  lemma ThreatsOfFirstStep(g: Grid, colour: Colour, n: int, q: Coord)
    requires 0 < n <= 64
    ensures q in ThreatsOfFirst(g, colour, n) <==>
            q in ThreatsOfFirst(g, colour, n - 1) || Threatens(g, colour, ScanSquare(n - 1), q)
  {
    var c := ScanSquare(n - 1);
    var added := if ColourAt(g, c) == colour then Elements(PieceThreats(g, c, PieceAt(g, c), colour)) else {};
    assert ThreatsOfFirst(g, colour, n) == ThreatsOfFirst(g, colour, n - 1) + added;
    assert q in added <==> Threatens(g, colour, c, q);
  }

  /** Whatever is in the map built from the first n squares is threatened by one of them. */
  lemma {:induction false} ThreatsOfFirstSound(g: Grid, colour: Colour, n: int, q: Coord)
    requires 0 <= n <= 64 && q in ThreatsOfFirst(g, colour, n)
    ensures exists c: Coord :: 8 * c.0 + c.1 < n && Threatens(g, colour, c, q)
    decreases n
  {
    ThreatsOfFirstStep(g, colour, n, q);
    var c := ScanSquare(n - 1);
    if q in ThreatsOfFirst(g, colour, n - 1) {
      ThreatsOfFirstSound(g, colour, n - 1, q);
      var d: Coord :| 8 * d.0 + d.1 < n - 1 && Threatens(g, colour, d, q);
      assert 8 * d.0 + d.1 < n;
    } else {
      assert 8 * c.0 + c.1 < n && Threatens(g, colour, c, q);
    }
  }

  /** Whatever one of the first n squares threatens is in the map built from them. */
  lemma {:induction false} ThreatsOfFirstComplete(g: Grid, colour: Colour, n: int, d: Coord, q: Coord)
    requires 8 * d.0 + d.1 < n <= 64 && Threatens(g, colour, d, q)
    ensures q in ThreatsOfFirst(g, colour, n)
    decreases n
  {
    ThreatsOfFirstStep(g, colour, n, q);
    if 8 * d.0 + d.1 < n - 1 {
      ThreatsOfFirstComplete(g, colour, n - 1, d, q);
      assert q in ThreatsOfFirst(g, colour, n - 1);
    } else {
      ScanSquareOf(d, n - 1);
      assert ScanSquare(n - 1) == d;
    }
  }

  /** A square is in the map built from the first n scanned squares exactly when one of them threatens it. */
  lemma ThreatsOfFirstMembership(g: Grid, colour: Colour, n: int, q: Coord)
    requires 0 <= n <= 64
    ensures q in ThreatsOfFirst(g, colour, n) <==>
            exists c: Coord :: 8 * c.0 + c.1 < n && Threatens(g, colour, c, q)
  {
    if q in ThreatsOfFirst(g, colour, n) {
      ThreatsOfFirstSound(g, colour, n, q);
    }
    if exists c: Coord :: 8 * c.0 + c.1 < n && Threatens(g, colour, c, q) {
      var c: Coord :| 8 * c.0 + c.1 < n && Threatens(g, colour, c, q);
      ThreatsOfFirstComplete(g, colour, n, c, q);
    }
  }

  /**
   * After generate_threat_maps a square is in the map of a colour exactly when some piece of
   * that colour threatens it; empty squares add nothing.
   */
  lemma ThreatMapMembership(g: Grid, colour: Colour, q: Coord)
    ensures q in ThreatMap(g, colour) <==> exists c :: Threatens(g, colour, c, q)
  {
    ThreatsOfFirstMembership(g, colour, 64, q);
    if exists c :: Threatens(g, colour, c, q) {
      var c :| Threatens(g, colour, c, q);
      assert 8 * c.0 + c.1 < 64;
    }
  }

  /** Empty squares never threaten, so only real pieces put squares into a map. */
  lemma ThreatsComeFromPieces(g: Grid, colour: Colour, c: Coord, q: Coord)
    requires Threatens(g, colour, c, q)
    ensures !IsEmptyAt(g, c) && GetColour(PieceAt(g, c)) == colour
  {
  }

  // ---------------------------------------------------------------- check

  function Opponent(colour: Colour): (o: Colour)
    ensures o != colour
  {
    match colour
    case White => Black
    case Black => White
  }

  /** king_in_check: the king's square is in the freshly built map of the other colour. */
  predicate InCheck(g: Grid, colour: Colour)
    requires HasKing(g, colour)
  {
    FindKing(g, colour) in ThreatMap(g, Opponent(colour))
  }

  /** A side is in check exactly when some enemy piece threatens the square get_king finds. */
  lemma InCheckIff(g: Grid, colour: Colour)
    requires HasKing(g, colour)
    ensures InCheck(g, colour) <==> exists c :: Threatens(g, Opponent(colour), c, FindKing(g, colour))
  {
    ThreatMapMembership(g, Opponent(colour), FindKing(g, colour));
  }
}
