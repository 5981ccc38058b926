/**
 * The board object: an 8×8 array of piece bytes indexed [y, x] and the two threat maps.
 * Its generator methods run the engine's loops and are proved equal to the functions
 * of MoveRules and ThreatRules over the grid they read; the methods that change the
 * board state exactly what they change.
 */
module Boards {
  import opened PieceData
  import opened Pieces
  import opened Coords
  import opened Grids
  import opened Scans
  import opened MoveRules
  import opened ThreatRules
  import opened Legality
  import opened Lists

  class Board {
    var grid: array2<Byte>
    var whiteThreatMap: set<Coord>
    var blackThreatMap: set<Coord>
    /** The squares as a value: cells[y][x] is the byte at grid[y, x]. */
    ghost var cells: Grid

    ghost predicate Valid()
      reads this`grid, this`cells, grid
    {
      grid.Length0 == 8 && grid.Length1 == 8 &&
      forall y, x :: 0 <= y < 8 && 0 <= x < 8 ==> grid[y, x] == cells[y][x]
    }

    /** piece_at: the byte at grid[c.1][c.0]. */
    function PieceAt(c: Coord): (b: Byte)
      reads this`grid, this`cells, grid
      requires Valid() && WithinBounds(c)
      ensures b == Grids.PieceAt(cells, c)
    {
      grid[c.1, c.0]
    }

    /** Board::new: the starting position, no threats recorded yet. */
    constructor New()
      ensures Valid() && fresh(grid)
      ensures cells == StartingPosition()
      ensures whiteThreatMap == {} && blackThreatMap == {}
    {
      var a := new Byte[8, 8];
      var start := StartingPosition();
      for y := 0 to 8
        invariant forall j, i :: 0 <= j < y && 0 <= i < 8 ==> a[j, i] == start[j][i]
      {
        for x := 0 to 8
          invariant forall j, i :: 0 <= j < y && 0 <= i < 8 ==> a[j, i] == start[j][i]
          invariant forall i :: 0 <= i < x ==> a[y, i] == start[y][i]
        {
          a[y, x] := start[y][x];
        }
      }
      grid, cells := a, start;
      whiteThreatMap, blackThreatMap := {}, {};
    }

    /** Board::copy: a board of its own holding the same bytes as the other board. */
    constructor Copy(other: Board)
      requires other.Valid()
      ensures Valid() && fresh(grid)
      ensures cells == other.cells
      ensures whiteThreatMap == {} && blackThreatMap == {}
    {
      var a := new Byte[8, 8];
      for y := 0 to 8
        invariant forall j, i :: 0 <= j < y && 0 <= i < 8 ==> a[j, i] == other.cells[j][i]
      {
        for x := 0 to 8
          invariant forall j, i :: 0 <= j < y && 0 <= i < 8 ==> a[j, i] == other.cells[j][i]
          invariant forall i :: 0 <= i < x ==> a[y, i] == other.cells[y][i]
        {
          a[y, x] := other.grid[y, x];
        }
      }
      grid, cells := a, other.cells;
      whiteThreatMap, blackThreatMap := {}, {};
    }

    /** make_pseudo_legal_move: the destination takes the origin's byte verbatim, the origin becomes 0x00. */
    method MakePseudoLegalMove(from: Coord, to: Coord)
      requires Valid() && WithinBounds(from) && WithinBounds(to)
      modifies grid, this`cells
      ensures Valid()
      ensures cells == MakeMove(old(cells), from, to)
    {
      grid[to.1, to.0] := grid[from.1, from.0];
      grid[from.1, from.0] := 0;
      cells := MakeMove(cells, from, to);
      forall y, x | 0 <= y < 8 && 0 <= x < 8
        ensures grid[y, x] == cells[y][x]
      {
        assert cells[y][x] == Grids.PieceAt(cells, (x, y));
      }
    }

    // ------------------------------------------------------------ sliding rays

    /**
     * The inner loop of the bishop and rook generators for one direction d: for square in 1..9,
     * stop at the edge; take an empty square and go on; at the first piece, take it if it is an
     * enemy (or always, when collecting threats) and stop.
     */
    method CastRay(c: Coord, d: Coord, colour: Colour, threat: bool, before: seq<Coord>) returns (moves: seq<Coord>)
      requires Valid()
      ensures moves == before + Ray(cells, c, d, colour, 1, threat)
    {
      moves := before;
      var square := 1;
      while square < 9
        invariant 1 <= square <= 9
        invariant moves + Ray(cells, c, d, colour, square, threat) == before + Ray(cells, c, d, colour, 1, threat)
      {
        var checked := (c.0 + d.0 * square, c.1 + d.1 * square);
        ScaleProduct(d.0, square);
        ScaleProduct(d.1, square);
        assert checked == Step(c, d, square);
        if !WithinBounds(checked) {
          break;
        }
        var piece := PieceAt(checked);
        assert piece == Grids.PieceAt(cells, checked);
        if IsEmpty(piece) {
          assert Ray(cells, c, d, colour, square, threat) == [checked] + Ray(cells, c, d, colour, square + 1, threat);
          AppendAssoc(moves, [checked], Ray(cells, c, d, colour, square + 1, threat));
          moves := moves + [checked];
        } else {
          if threat || GetColour(piece) != colour {
            moves := moves + [checked];
          }
          break;
        }
        square := square + 1;
      }
    }

    /** The bishop loops: for direction_y, for direction_x, one ray each. */
    method BishopRays(c: Coord, colour: Colour, threat: bool) returns (moves: seq<Coord>)
      requires Valid()
      ensures moves == Rays(cells, c, colour, BishopDirections, threat)
    {
      moves := [];
      for i := 0 to 2
        invariant moves == Rays(cells, c, colour, BishopDirections[..2 * i], threat)
      {
        for j := 0 to 2
          invariant moves == Rays(cells, c, colour, BishopDirections[..2 * i + j], threat)
        {
          BishopOrder(i, j);
          RaysStep(cells, c, colour, BishopDirections, 2 * i + j, threat);
          moves := CastRay(c, (DIRECTIONS[j], DIRECTIONS[i]), colour, threat, moves);
        }
      }
      assert BishopDirections[..4] == BishopDirections;
    }

    /** The rook loops: for axis (horizontal, then vertical), for direction, one ray each. */
    method RookRays(c: Coord, colour: Colour, threat: bool) returns (moves: seq<Coord>)
      requires Valid()
      ensures moves == Rays(cells, c, colour, RookDirections, threat)
    {
      moves := [];
      for i := 0 to 2
        invariant moves == Rays(cells, c, colour, RookDirections[..2 * i], threat)
      {
        for j := 0 to 2
          invariant moves == Rays(cells, c, colour, RookDirections[..2 * i + j], threat)
        {
          RookOrder(i, j);
          RaysStep(cells, c, colour, RookDirections, 2 * i + j, threat);
          var d := if DIRECTIONS[i] == -1 then (DIRECTIONS[j], 0) else (0, DIRECTIONS[j]);
          moves := CastRay(c, d, colour, threat, moves);
        }
      }
      assert RookDirections[..4] == RookDirections;
    }

    method GetBishopMoves(c: Coord, colour: Colour) returns (moves: seq<Coord>)
      requires Valid()
      ensures moves == BishopMoves(cells, c, colour)
    {
      moves := BishopRays(c, colour, false);
    }

    method GetRookMoves(c: Coord, colour: Colour) returns (moves: seq<Coord>)
      requires Valid()
      ensures moves == RookMoves(cells, c, colour)
    {
      moves := RookRays(c, colour, false);
    }

    method GetQueenMoves(c: Coord, colour: Colour) returns (moves: seq<Coord>)
      requires Valid()
      ensures moves == QueenMoves(cells, c, colour)
    {
      var bishop := GetBishopMoves(c, colour);
      var rook := GetRookMoves(c, colour);
      moves := bishop + rook;
    }

    method GetBishopThreats(c: Coord, colour: Colour) returns (moves: seq<Coord>)
      requires Valid()
      ensures moves == BishopThreats(cells, c, colour)
    {
      moves := BishopRays(c, colour, true);
    }

    method GetRookThreats(c: Coord, colour: Colour) returns (moves: seq<Coord>)
      requires Valid()
      ensures moves == RookThreats(cells, c, colour)
    {
      moves := RookRays(c, colour, true);
    }

    method GetQueenThreats(c: Coord, colour: Colour) returns (moves: seq<Coord>)
      requires Valid()
      ensures moves == QueenThreats(cells, c, colour)
    {
      var bishop := GetBishopThreats(c, colour);
      var rook := GetRookThreats(c, colour);
      moves := bishop + rook;
    }

    // ------------------------------------------------------------ knights and kings

    method GetKnightMoves(c: Coord, colour: Colour) returns (moves: seq<Coord>)
      requires Valid()
      ensures moves == KnightMoves(cells, c, colour)
    {
      ghost var candidates := KnightCandidates(c);
      moves := [];
      for i := 0 to 2
        invariant moves == Keep(cells, Moves(colour), candidates[..4 * i])
      {
        for j := 0 to 2
          invariant moves == Keep(cells, Moves(colour), candidates[..4 * i + 2 * j])
        {
          for l := 0 to 2
            invariant moves == Keep(cells, Moves(colour), candidates[..4 * i + 2 * j + l])
          {
            var checked := (c.0 + DIRECTIONS[i] * (1 + l), c.1 + DIRECTIONS[j] * (2 - l));
            KnightOrder(c, i, j, l);
            var open := false;
            if WithinBounds(checked) {
              var piece := PieceAt(checked);
              assert piece == Grids.PieceAt(cells, checked);
              open := IsEmpty(piece) || GetColour(piece) != colour;
            }
            KeepNext(cells, Moves(colour), candidates, 4 * i + 2 * j + l, checked, open);
            if open {
              moves := moves + [checked];
            }
          }
        }
      }
      assert candidates[..8] == candidates;
    }

    method GetKnightThreats(c: Coord, colour: Colour) returns (moves: seq<Coord>)
      requires Valid()
      ensures moves == KnightThreats(cells, c)
    {
      ghost var candidates := KnightCandidates(c);
      moves := [];
      for i := 0 to 2
        invariant moves == Keep(cells, Threats, candidates[..4 * i])
      {
        for j := 0 to 2
          invariant moves == Keep(cells, Threats, candidates[..4 * i + 2 * j])
        {
          for l := 0 to 2
            invariant moves == Keep(cells, Threats, candidates[..4 * i + 2 * j + l])
          {
            var checked := (c.0 + DIRECTIONS[i] * (1 + l), c.1 + DIRECTIONS[j] * (2 - l));
            KnightOrder(c, i, j, l);
            KeepNext(cells, Threats, candidates, 4 * i + 2 * j + l, checked, WithinBounds(checked));
            if WithinBounds(checked) {
              moves := moves + [checked];
            }
          }
        }
      }
      assert candidates[..8] == candidates;
    }

    method GetKingMoves(c: Coord, colour: Colour) returns (moves: seq<Coord>)
      requires Valid()
      ensures moves == KingMoves(cells, c, colour)
    {
      ghost var candidates := KingMoveCandidates(c);
      moves := [];
      for row := -1 to 2
        invariant moves == Keep(cells, Moves(colour), candidates[..3 * (row + 1)])
      {
        for col := -1 to 2
          invariant moves == Keep(cells, Moves(colour), candidates[..3 * (row + 1) + (col + 1)])
        {
          var checked := (c.0 + row, c.1 + col);
          KingMoveOrder(c, row, col);
          var open := false;
          if WithinBounds(checked) {
            var piece := PieceAt(checked);
            assert piece == Grids.PieceAt(cells, checked);
            open := (!IsEmpty(piece) && GetColour(piece) != colour) || IsEmpty(piece);
          }
          KeepNext(cells, Moves(colour), candidates, 3 * (row + 1) + (col + 1), checked, open);
          if open {
            moves := moves + [checked];
          }
        }
      }
      assert candidates[..9] == candidates;
    }

    method GetKingThreats(c: Coord, colour: Colour) returns (moves: seq<Coord>)
      requires Valid()
      ensures moves == KingThreats(cells, c)
    {
      ghost var candidates := KingThreatCandidates(c);
      moves := [];
      for row := -1 to 2
        invariant moves == Keep(cells, ThreatsAround(c), candidates[..3 * (row + 1)])
      {
        for col := -1 to 2
          invariant moves == Keep(cells, ThreatsAround(c), candidates[..3 * (row + 1) + (col + 1)])
        {
          var checked := (c.0 + col, c.1 + row);
          KingThreatOrder(c, row, col);
          var open := WithinBounds(checked) && (row != 0 || col != 0);
          KeepNext(cells, ThreatsAround(c), candidates, 3 * (row + 1) + (col + 1), checked, open);
          if open {
            moves := moves + [checked];
          }
        }
      }
      assert candidates[..9] == candidates;
    }

    // ------------------------------------------------------------ pawns

    method GetPawnMoves(c: Coord, colour: Colour, firstMove: bool) returns (moves: seq<Coord>)
      requires Valid() && PawnPushesOnBoard(cells, c, colour, firstMove)
      ensures moves == PawnMoves(cells, c, colour, firstMove)
    {
      var moveDirection := if colour == White then -1 else 1;
      assert moveDirection == PawnDirection(colour);
      moves := [];
      var checked := (c.0, c.1 + moveDirection);
      if IsEmpty(PieceAt(checked)) {
        moves := moves + [checked];
      }
      checked := (c.0, c.1 + moveDirection * 2);
      if firstMove && |moves| == 1 && IsEmpty(PieceAt(checked)) {
        moves := moves + [checked];
      }
      assert moves == PawnPushes(cells, c, colour, firstMove);
      moves := PawnCaptureLoop(c, colour, moveDirection, moves);
      if c.0 == 3 || c.0 == 4 {
        moves := EnPassantLoop(c, colour, moveDirection, moves);
      } else {
        assert moves + [] == moves;
      }
    }

    /** The attack loop of get_pawn_moves: for each side, an enemy piece on the forward diagonal. */
    method PawnCaptureLoop(c: Coord, colour: Colour, moveDirection: int, before: seq<Coord>) returns (moves: seq<Coord>)
      requires Valid() && moveDirection == PawnDirection(colour)
      ensures moves == before + PawnDiagonals(cells, c, colour, DIRECTIONS, Capture)
    {
      moves := before;
      for i := 0 to 2
        invariant moves == before + PawnDiagonals(cells, c, colour, DIRECTIONS[..i], Capture)
      {
        var checked := (c.0 + DIRECTIONS[i], c.1 + moveDirection);
        var open := false;
        if WithinBounds(checked) {
          var piece := PieceAt(checked);
          assert piece == Grids.PieceAt(cells, checked);
          open := !IsEmpty(piece) && GetColour(piece) != colour;
        }
        PawnDiagonalsNext(cells, c, colour, DIRECTIONS, i, Capture, open, before);
        if open {
          moves := moves + [checked];
        }
      }
      assert DIRECTIONS[..2] == DIRECTIONS;
    }

    /** The en-passant loop of get_pawn_moves: a neighbour carrying 0x20 beside an empty forward diagonal. */
    method EnPassantLoop(c: Coord, colour: Colour, moveDirection: int, before: seq<Coord>) returns (moves: seq<Coord>)
      requires Valid() && moveDirection == PawnDirection(colour)
      ensures moves == before + PawnDiagonals(cells, c, colour, DIRECTIONS, EnPassant)
    {
      moves := before;
      for i := 0 to 2
        invariant moves == before + PawnDiagonals(cells, c, colour, DIRECTIONS[..i], EnPassant)
      {
        var checked := (c.0 + DIRECTIONS[i], c.1 + moveDirection);
        var enPassanting := (c.0 + DIRECTIONS[i], c.1);
        var open := false;
        if WithinBounds(enPassanting) && WithinBounds(checked) {
          var beside, target := PieceAt(enPassanting), PieceAt(checked);
          assert beside == Grids.PieceAt(cells, enPassanting) && target == Grids.PieceAt(cells, checked);
          open := beside & EnPassantFlag == EnPassantFlag && IsEmpty(target);
        }
        PawnDiagonalsNext(cells, c, colour, DIRECTIONS, i, EnPassant, open, before);
        if open {
          moves := moves + [checked];
        }
      }
      assert DIRECTIONS[..2] == DIRECTIONS;
    }

    method GetPawnThreats(c: Coord, colour: Colour) returns (moves: seq<Coord>)
      requires Valid() && WithinBounds(c)
      ensures moves == PawnThreats(cells, c, colour)
    {
      var moveDirection := if colour == White then -1 else 1;
      assert moveDirection == PawnDirection(colour);
      moves := PawnAttackLoop(c, colour, moveDirection);
      moves := EnPassantThreatLoop(c, colour, moveDirection, moves);
    }

    /** The attack loop of get_pawn_threats: each forward diagonal whose colour bit differs. */
    method PawnAttackLoop(c: Coord, colour: Colour, moveDirection: int) returns (moves: seq<Coord>)
      requires Valid() && moveDirection == PawnDirection(colour)
      ensures moves == PawnDiagonals(cells, c, colour, DIRECTIONS, AttackThreat)
    {
      moves := [];
      for i := 0 to 2
        invariant moves == PawnDiagonals(cells, c, colour, DIRECTIONS[..i], AttackThreat)
      {
        var checked := (c.0 + DIRECTIONS[i], c.1 + moveDirection);
        var open := false;
        if WithinBounds(checked) {
          var piece := PieceAt(checked);
          assert piece == Grids.PieceAt(cells, checked);
          open := GetColour(piece) != colour;
        }
        PawnDiagonalsNext(cells, c, colour, DIRECTIONS, i, AttackThreat, open, []);
        if open {
          moves := moves + [checked];
        }
      }
      assert DIRECTIONS[..2] == DIRECTIONS;
    }

    /** The en-passant loop of get_pawn_threats: an enemy neighbour carrying 0x20 beside an empty forward diagonal. */
    method EnPassantThreatLoop(c: Coord, colour: Colour, moveDirection: int, before: seq<Coord>) returns (moves: seq<Coord>)
      requires Valid() && WithinBounds(c) && moveDirection == PawnDirection(colour)
      ensures moves == before + PawnDiagonals(cells, c, colour, DIRECTIONS, EnPassantThreat)
    {
      moves := before;
      for i := 0 to 2
        invariant moves == before + PawnDiagonals(cells, c, colour, DIRECTIONS[..i], EnPassantThreat)
      {
        var passanted := (c.0 + DIRECTIONS[i], c.1 + moveDirection);
        var checked := (c.0 + DIRECTIONS[i], c.1);
        if !WithinBounds(passanted) {
          PawnDiagonalsNext(cells, c, colour, DIRECTIONS, i, EnPassantThreat, false, before);
          continue;
        }
        var passanting := PieceAt(checked);
        var target := PieceAt(passanted);
        assert passanting == Grids.PieceAt(cells, checked) && target == Grids.PieceAt(cells, passanted);
        var open := WithinBounds(passanted) && !IsEmpty(passanting) && IsEmpty(target)
                    && GetColour(passanting) != colour && passanting & EnPassantFlag == EnPassantFlag;
        PawnDiagonalsNext(cells, c, colour, DIRECTIONS, i, EnPassantThreat, open, before);
        if open {
          moves := moves + [passanted];
        }
      }
      assert DIRECTIONS[..2] == DIRECTIONS;
    }

    // ------------------------------------------------------------ dispatch

    /** get_pseudo_legal_moves: the generator of the kind on c, fed its colour and the 0x80 flag. */
    method GetPseudoLegalMoves(c: Coord) returns (moves: seq<Coord>)
      requires Valid() && PseudoLegalDefined(cells, c)
      ensures moves == PseudoLegalMoves(cells, c)
    {
      var piece := PieceAt(c);
      var colour := GetColour(piece);
      var firstMove := piece & NotMovedFlag == NotMovedFlag;
      match GetType(piece)
      case Pawn => moves := GetPawnMoves(c, colour, firstMove);
      case Knight => moves := GetKnightMoves(c, colour);
      case Bishop => moves := GetBishopMoves(c, colour);
      case Rook => moves := GetRookMoves(c, colour);
      case Queen => moves := GetQueenMoves(c, colour);
      case King => moves := GetKingMoves(c, colour);
      case None => moves := [];
    }

    /** get_piece_threat_moves: the threat generator of the given piece's kind. */
    method GetPieceThreatMoves(c: Coord, piece: Byte, colour: Colour) returns (moves: seq<Coord>)
      requires Valid() && WithinBounds(c)
      ensures moves == PieceThreats(cells, c, piece, colour)
    {
      match GetType(piece)
      case Pawn => moves := GetPawnThreats(c, colour);
      case Knight => moves := GetKnightThreats(c, colour);
      case Bishop => moves := GetBishopThreats(c, colour);
      case Rook => moves := GetRookThreats(c, colour);
      case Queen => moves := GetQueenThreats(c, colour);
      case King => moves := GetKingThreats(c, colour);
      case None => moves := [];
    }

    // ------------------------------------------------------------ threat maps and check

    /**
     * generate_threat_maps: for row, for col, every square's threats go into the map of the
     * colour bit there; both maps are then replaced. The grid is left as it was.
     */
    method GenerateThreatMaps()
      requires Valid()
      modifies this`whiteThreatMap, this`blackThreatMap
      ensures blackThreatMap == ThreatMap(cells, Black)
      ensures whiteThreatMap == ThreatMap(cells, White)
    {
      var blackMap: set<Coord> := {};
      var whiteMap: set<Coord> := {};
      ghost var scanned := 0;
      for row := 0 to 8
        invariant scanned == 8 * row
        invariant blackMap == ThreatsOfFirst(cells, Black, scanned)
        invariant whiteMap == ThreatsOfFirst(cells, White, scanned)
      {
        blackMap, whiteMap := ScanRow(row, scanned, blackMap, whiteMap);
        scanned := scanned + 8;
      }
      blackThreatMap := blackMap;
      whiteThreatMap := whiteMap;
    }

    /**
     * The inner loop of generate_threat_maps, for col in 0..8 at one row: the threats of the
     * piece on (row, col) go into the map of its colour bit.
     */
    method ScanRow(row: int, ghost first: int, blackBefore: set<Coord>, whiteBefore: set<Coord>)
      returns (blackMap: set<Coord>, whiteMap: set<Coord>)
      requires Valid() && 0 <= row < 8 && first == 8 * row
      requires blackBefore == ThreatsOfFirst(cells, Black, first)
      requires whiteBefore == ThreatsOfFirst(cells, White, first)
      ensures blackMap == ThreatsOfFirst(cells, Black, first + 8)
      ensures whiteMap == ThreatsOfFirst(cells, White, first + 8)
    {
      blackMap, whiteMap := blackBefore, whiteBefore;
      ghost var scanned := first;
      for col := 0 to 8
        invariant scanned == 8 * row + col
        invariant blackMap == ThreatsOfFirst(cells, Black, scanned)
        invariant whiteMap == ThreatsOfFirst(cells, White, scanned)
      {
        ScanSquareOf((row, col), scanned);
        var piece := PieceAt((row, col));
        var colour := GetColour(piece);
        var moves := GetPieceThreatMoves((row, col), piece, colour);
        ThreatsOfNext(cells, scanned, (row, col), piece, moves);
        if colour == Black {
          blackMap := InsertAll(blackMap, moves);
        } else {
          whiteMap := InsertAll(whiteMap, moves);
        }
        scanned := scanned + 1;
      }
    }

    /**
     * get_king, whose text is not part of this model: the first square in reading order
     * holding the king of that colour.
     */
    method GetKing(colour: Colour) returns (king: Coord)
      requires Valid() && HasKing(cells, colour)
      ensures WithinBounds(king) && IsKingOf(cells, colour, king)
      ensures king == FindKing(cells, colour)
    {
      var n := 0;
      while !(GetType(PieceAt(Square(n))) == King && GetColour(PieceAt(Square(n))) == colour)
        invariant 0 <= n < 64
        invariant exists m :: n <= m < 64 && IsKingOf(cells, colour, Square(m))
        invariant FindKingFrom(cells, colour, n) == FindKing(cells, colour)
        decreases 64 - n
      {
        n := n + 1;
      }
      king := Square(n);
    }

    /**
     * king_in_check: regenerate both maps, find the king of that colour, and look it up in the
     * other colour's map. Only the maps change.
     */
    static method KingInCheck(board: Board, colour: Colour) returns (inCheck: bool)
      requires board.Valid() && HasKing(board.cells, colour)
      modifies board`whiteThreatMap, board`blackThreatMap
      ensures board.blackThreatMap == ThreatMap(board.cells, Black)
      ensures board.whiteThreatMap == ThreatMap(board.cells, White)
      ensures inCheck == InCheck(board.cells, colour)
    {
      board.GenerateThreatMaps();
      var king := board.GetKing(colour);
      if colour == Black {
        inCheck := king in board.whiteThreatMap;
      } else {
        inCheck := king in board.blackThreatMap;
      }
    }

    /**
     * The body of get_legal_moves' loop: make the move on a copy of this board and ask
     * king_in_check for the mover's colour there. This board is not changed.
     */
    method SimulateMove(from: Coord, to: Coord, colour: Colour) returns (safe: bool)
      requires Valid() && WithinBounds(from) && !IsEmptyAt(cells, from) && colour == ColourAt(cells, from)
      requires HasKing(cells, colour) && IsOpenTo(cells, colour, to)
      ensures safe == LeavesKingSafe(cells, from, to)
    {
      MoveKeepsKing(cells, from, to);
      var newBoard := new Board.Copy(this);
      newBoard.MakePseudoLegalMove(from, to);
      var inCheck := KingInCheck(newBoard, colour);
      safe := !inCheck;
    }

    /**
     * get_legal_moves: for each pseudo-legal destination, simulate the move on a copy and keep
     * its name when the mover's king is not in check there. This board is not changed.
     */
    method GetLegalMoves(filerank: string) returns (legalMoves: seq<string>)
      requires Valid() && LegalMovesDefined(cells, filerank)
      ensures legalMoves == LegalMoves(cells, filerank)
    {
      var coordinates := FileRankToNum(filerank);
      var pseudo := GetPseudoLegalMoves(coordinates);
      legalMoves := [];
      var piece := GetPieceData(PieceAt(coordinates));
      PseudoTargetsFilterable(cells, coordinates);
      for m := 0 to |pseudo|
        invariant Filterable(cells, coordinates, pseudo[..m])
        invariant legalMoves == LegalNames(cells, coordinates, pseudo[..m])
      {
        LegalNamesNext(cells, coordinates, pseudo, m);
        var safe := SimulateMove(coordinates, pseudo[m], piece.0);
        if safe {
          legalMoves := legalMoves + [NumToFileRank(pseudo[m])];
        }
      }
      assert pseudo[..|pseudo|] == pseudo;
    }
  }

  /** The insertion loop of generate_threat_maps: every listed square goes into the map. */
  method InsertAll(threats: set<Coord>, moves: seq<Coord>) returns (r: set<Coord>)
    ensures r == threats + Elements(moves)
  {
    r := threats;
    for k := 0 to |moves|
      invariant r == threats + Elements(moves[..k])
    {
      assert moves[..k + 1] == moves[..k] + [moves[k]];
      r := r + {moves[k]};
    }
    assert moves[..|moves|] == moves;
  }
}
