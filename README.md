# Chess move generation, threat maps and legality — a Dafny model

This project models the core of a small chess engine written in Rust. The board is an 8×8 grid of one-byte pieces:

- bit 0 is the colour (0 white, 1 black);
- bits 1–3 are the kind (0 none, 1 pawn … 6 king);
- 0x80 marks a piece that has not moved;
- 0x20 marks a pawn that may be taken en passant.

A square is addressed as `(x, y)`: `x` is the file (0 = a) and `y` is the row, where row 0 is rank 8.

The model covers the engine's move pipeline:
- each kind's pseudo-legal move generator;
- each kind's threat generator, meaning the squares a piece attacks or defends;
- `generate_threat_maps`, which fills one set of threatened squares per colour;
- `king_in_check`;
- `get_legal_moves`, which simulates every pseudo-legal move on a copy of the board and keeps the destinations that leave the mover's king out of check, as square names such as `"e4"`.

The model is layered as the engine is:

- `Pieces` (piece.rs) holds the piece byte and its decoders as functions. The in-place setters are methods of a small `Piece` class.
- `Coords` (board_assoc.rs) holds `within_bounds` and the two square-name codecs, proved inverse to each other.
- `Grids` (board.rs) models the board as a value: `Board::new`, `convert_str_pos`, `make_pseudo_legal_move` as a function, and the king lookup.
- `Scans`, `MoveRules` and `ThreatRules` (board_moves.rs, threat_map.rs) state what each generator returns, and in which order, as functions of the grid. Each has membership lemmas saying which squares a generator lists. The threat maps, the check test and the relation between moves and threats are stated there too.
- `Legality` (board_moves.rs) states `get_legal_moves` as a filter over the pseudo-legal moves.
- `Boards` holds the `Board` class. It has an `array2` of bytes and the two threat-map sets. Its methods run the engine's own nested loops (over directions, ray steps, rows and columns), and each one is proved equal to the corresponding function over the grid it reads.

Three behaviours of the source are modelled as written:

- The pawn threat generator compares only colour bits (threat_map.rs:66). An empty square reads as white, so a black pawn threatens each empty forward diagonal and a white pawn does not (`ThreatRules.PawnThreatsOnEmpty`).
- The pawn move generator looks for en-passant captures only when the pawn stands on file d or e (board_moves.rs:75). It does not look at the neighbour's colour, only at its 0x20 flag (board_moves.rs:80-83).
- The pawn threat generator checks en passant on every file and does require an enemy neighbour (threat_map.rs:71-85).

## Model

| member | source | states |
|---|---|---|
| Pieces.New | src/chess/piece.rs:17-35 | a fresh piece decodes back to the colour and kind it was built from, carries neither the not-moved nor the en-passant flag, and is at most 13 |
| Pieces.GetPieceData | src/chess/piece.rs:38-63 | the colour is black exactly when bit 0 is set; the kind is None exactly when the kind bits are 0 or the unused pattern 14 |
| Pieces.GetIcon | src/chess/piece.rs:91-102 | the icon read from the kind bits always agrees with the kind `get_type` decodes; the filled square is drawn exactly for an empty square |
| Pieces.WithType | src/chess/piece.rs:66-80 | after set_type the kind is the requested one; a real kind keeps the colour bit and both flags, and None clears the whole byte to a white empty square |
| Pieces.FlagsInvisible | src/chess/piece.rs:38-58 | toggling any bit outside the low nibble (the 0x80 and 0x20 flags) changes neither colour, kind nor icon |
| Pieces.Piece.FromU8 | src/chess/piece.rs:13-15 | the piece holds exactly the given byte, and as_u8 (piece.rs:87-89) reads it back unchanged |
| Pieces.Piece.SetType | src/chess/piece.rs:66-80 | the stored byte becomes WithType of the old byte |
| Pieces.Piece.SetToNone | src/chess/piece.rs:83-85 | the stored byte becomes 0, an empty square with colour bit white |
| Pieces.Piece.SetData | src/chess/piece.rs:104-106 | the stored byte becomes the given byte, and as_u8 (piece.rs:87-89) reads it back unchanged |
| Coords.NumToFileRank | src/chess/board_assoc.rs:12-19 | the name has two characters, and it is a valid square name (a–h, 1–8) exactly when the square is on the board; (0,0) is "a8" and (7,7) is "h1" |
| Coords.FileRankToNum | src/chess/board_assoc.rs:22-38 | the decoded square is on the board exactly when the file letter is a–h and the rank digit 1–8 |
| Coords.NumToFileRankRoundTrip | src/chess/board_assoc.rs:12-38 | decoding the name of an on-board square gives back that square |
| Coords.FileRankToNumRoundTrip | src/chess/board_assoc.rs:12-38 | encoding the square a valid name decodes to gives back that name |
| Grids.MakeMove | src/chess/board_moves.rs:205-208 | the origin becomes 0, the destination holds the origin's byte unchanged, and every other square is untouched |
| Grids.FindKing | src/chess/board_assoc.rs:43 | the square found is on the board and holds a king of the requested colour |
| Grids.FindKingUnique | src/chess/board_assoc.rs:43 | when a colour has exactly one king, the lookup finds that king |
| Grids.StartingRows | src/chess/board.rs:15-26 | the exact byte of every starting square: the black back rank and pawns on rows 0–1, zeros on rows 2–5, the white pawns and back rank on rows 6–7, with 0x80 on all but the knights and bishops |
| Grids.StartingMiddle | src/chess/board.rs:15-26 | rows 2–5 are empty, row 1 holds black pawns and row 6 white pawns |
| Grids.StartingBackRanks | src/chess/board.rs:15-26 | both back ranks read rook, knight, bishop, queen, king, bishop, knight, rook |
| Grids.StartingFlags | src/chess/board.rs:15-26 | no starting piece carries the en-passant flag; exactly the pawns, rooks, queens and kings carry the not-moved flag |
| Grids.StartingKings | src/chess/board.rs:15-26 | each colour has exactly one king, black on e8 and white on e1, and the king lookup finds them there |
| Grids.ConvertStrPos | src/chess/board.rs:45-61 | the result is filerank_to_num's square with its two coordinates swapped, as a pair of bytes |
| Scans.PawnDirection | src/chess/board_moves.rs:52 | white pawns move towards row 0 (−1), black pawns towards row 7 (+1) |
| Scans.RaySteps | src/chess/board_moves.rs:118-133 | a ray lists consecutive steps along its direction, at most 8 of them, all on the board |
| Scans.RayStops | src/chess/board_moves.rs:118-133 | every square of a ray but the last is empty; the ray ends on an empty square only when the next step is off the board, a friend on a move ray, or past the loop bound |
| Scans.RayMovesPrefixOfThreats | src/chess/threat_map.rs:109-133 | the move ray is a prefix of the threat ray, and the threat ray adds at most the friend that stops it |
| Scans.RaysMembership | src/chess/board_moves.rs:112-138 | a square is on the rays exactly when it is on the ray along one of the directions |
| Scans.BishopOrder | src/chess/board_moves.rs:116-117 | the bishop's directions come in the loop order, with the y direction outer and the x direction inner |
| Scans.RookOrder | src/chess/board_moves.rs:144-152 | the rook's directions come in the loop order: horizontal left and right, then vertical up and down |
| Scans.KeepMembership | src/chess/board_moves.rs:91-110 | a candidate is kept exactly when it is a candidate that passes the generator's filter |
| Scans.KnightOrder | src/chess/board_moves.rs:91-110 | candidate 4i + 2j + l is the loop's jump (±(1 + l), ±(2 − l)) |
| Scans.KnightJumps | src/chess/board_moves.rs:91-110 | the eight candidates are exactly the L-shaped jumps |
| Scans.PawnDiagonalsLeftThenRight | src/chess/board_moves.rs:66-86 | each pawn rule yields the left forward diagonal, then the right one, each exactly when the rule admits it |
| MoveRules.PawnPushes | src/chess/board_moves.rs:57-63 | the single push is listed exactly when its square is empty; the double push exactly when the pawn has not moved and both squares are empty; nothing else is listed; at most two entries, the single push first and the double push second |
| MoveRules.PawnMovesMembership | src/chess/board_moves.rs:50-89 | a pawn's move list holds exactly its allowed pushes, the forward diagonals holding an enemy, and, on files d and e, the empty forward diagonals beside a neighbour flagged 0x20 |
| MoveRules.KnightMovesMembership | src/chess/board_moves.rs:91-110 | a knight moves to exactly the on-board L-jumps that are empty or hold an enemy |
| MoveRules.KingMoveOrder | src/chess/board_moves.rs:184-203 | candidate 3(row + 1) + (col + 1) is the loop's square (c.0 + row, c.1 + col) |
| MoveRules.KingMoveBlock | src/chess/board_moves.rs:184-203 | the nine candidates are exactly the 3×3 block around the king |
| MoveRules.KingMovesMembership | src/chess/board_moves.rs:184-203 | a king moves to exactly the on-board neighbours that are empty or hold an enemy |
| MoveRules.KingSkipsOwnSquare | src/chess/board_moves.rs:184-203 | the king's own square is a candidate but never a move |
| MoveRules.MoveRaysOpen | src/chess/board_moves.rs:112-171 | every square on a bishop, rook or queen move ray is on the board and empty or holds an enemy |
| MoveRules.RayDistance | src/chess/board_moves.rs:118-133 | a ray square is between 1 and 8 steps from the piece along the ray's direction |
| MoveRules.StepGeometry | src/chess/board_moves.rs:118-133 | k diagonal steps move k files and k rows; k straight steps move k along one axis only |
| MoveRules.SliderGeometry | src/chess/board_moves.rs:112-171 | bishop squares lie on a diagonal through the piece, rook squares on its file or row, never on the piece itself |
| MoveRules.PseudoLegalMoves | src/chess/board_moves.rs:6-30 | an empty square has no moves |
| MoveRules.PseudoTargetsOpen | src/chess/board_moves.rs:6-30 | every pseudo-legal destination is on the board, empty or an enemy, and never the piece's own square |
| MoveRules.MoveKeepsKing | src/chess/board_moves.rs:205-208 | a pseudo-legal move never removes the mover's own king from the board |
| ThreatRules.KingThreatOrder | src/chess/threat_map.rs:177-192 | candidate 3(row + 1) + (col + 1) is the loop's square (c.0 + col, c.1 + row) |
| ThreatRules.KingThreatBlock | src/chess/threat_map.rs:177-192 | the nine candidates are exactly the 3×3 block around the king |
| ThreatRules.PieceThreats | src/chess/threat_map.rs:37-52 | a byte whose kind is None threatens nothing |
| ThreatRules.PawnThreatsMembership | src/chess/threat_map.rs:54-88 | a pawn threatens exactly the on-board forward diagonals whose colour bit differs from its own, and the empty forward diagonals beside an enemy neighbour flagged 0x20 |
| ThreatRules.PawnThreatsOnEmpty | src/chess/threat_map.rs:62-68 | an empty forward diagonal is always threatened by a black pawn and by a white pawn only through en passant; a push square is never threatened |
| ThreatRules.KnightThreatsMembership | src/chess/threat_map.rs:90-107 | a knight threatens exactly the on-board L-jumps, whatever stands on them |
| ThreatRules.KingThreatsMembership | src/chess/threat_map.rs:177-192 | a king threatens exactly its on-board neighbours, never its own square |
| ThreatRules.MoveRaysAreThreatRays | src/chess/threat_map.rs:109-164 | every square on a move ray is also on the matching threat ray |
| ThreatRules.MovesAreThreats | src/chess/threat_map.rs:37-52 | for every kind but the pawn, each pseudo-legal destination is also a threatened square |
| ThreatRules.ScanSquare | src/chess/threat_map.rs:13-14 | scan position n is an on-board square (x, y) with 8x + y = n |
| ThreatRules.ScanSquareOf | src/chess/threat_map.rs:13-14 | every on-board square is scanned, at position 8x + y |
| ThreatRules.ThreatsOfNext | src/chess/threat_map.rs:15-28 | one scanned square adds its piece's threats to the map of its colour bit and leaves the other map unchanged |
| ThreatRules.ThreatsOfFirstMembership | src/chess/threat_map.rs:13-30 | after n scanned squares a square is in a colour's map exactly when one of those squares holds a piece of that colour that threatens it |
| ThreatRules.ThreatMapMembership | src/chess/threat_map.rs:9-34 | after the full scan a square is in a colour's map exactly when some piece of that colour threatens it |
| ThreatRules.ThreatsComeFromPieces | src/chess/threat_map.rs:37-52 | only real pieces of that colour put squares into a map |
| ThreatRules.Opponent | src/chess/board_assoc.rs:45-50 | the opponent of a colour is the other colour |
| ThreatRules.InCheckIff | src/chess/board_assoc.rs:41-51 | a side is in check exactly when some enemy piece threatens the square of its king |
| Legality.LegalFilterMembership | src/chess/board_moves.rs:39-45 | a destination survives the filter exactly when it was offered and moving there leaves the king safe |
| Legality.LegalFilterAppend | src/chess/board_moves.rs:39-45 | the filter keeps order: filtering a concatenation concatenates the filtered parts |
| Legality.LegalTargetsMembership | src/chess/board_moves.rs:32-48 | a destination is legal exactly when it is pseudo-legal and the position after the move does not leave the mover in check |
| Legality.NamesRoundTrip | src/chess/board_moves.rs:43 | every name produced is a valid square name that decodes to the destination it was made from |
| Legality.LegalNamesNext | src/chess/board_moves.rs:39-45 | one more pseudo-legal destination adds its name exactly when moving there leaves the king safe |
| Legality.LegalMovesNames | src/chess/board_moves.rs:32-48 | get_legal_moves returns one valid square name per legal destination, in generation order, each decoding to that destination |
| Boards.Board.New | src/chess/board.rs:15-26 | a new board holds the starting position and empty threat maps |
| Boards.Board.Copy | src/chess/board_moves.rs:40 | the copy is a fresh array holding the same bytes, with empty threat maps |
| Boards.Board.MakePseudoLegalMove | src/chess/board_moves.rs:205-208 | the board afterwards is MakeMove of the board before |
| Boards.Board.CastRay | src/chess/board_moves.rs:118-133 | the loop along one direction appends exactly that direction's ray |
| Boards.Board.BishopRays | src/chess/board_moves.rs:112-138 | the two nested direction loops append the four diagonal rays in loop order |
| Boards.Board.RookRays | src/chess/board_moves.rs:140-171 | the axis and direction loops append the four straight rays in loop order |
| Boards.Board.GetBishopMoves | src/chess/board_moves.rs:112-138 | returns exactly BishopMoves of the board |
| Boards.Board.GetRookMoves | src/chess/board_moves.rs:140-171 | returns exactly RookMoves of the board |
| Boards.Board.GetQueenMoves | src/chess/board_moves.rs:173-182 | returns the bishop's moves followed by the rook's |
| Boards.Board.GetBishopThreats | src/chess/threat_map.rs:109-133 | returns exactly BishopThreats of the board |
| Boards.Board.GetRookThreats | src/chess/threat_map.rs:135-164 | returns exactly RookThreats of the board |
| Boards.Board.GetQueenThreats | src/chess/threat_map.rs:166-175 | returns the bishop's threats followed by the rook's |
| Boards.Board.GetKnightMoves | src/chess/board_moves.rs:91-110 | the triple loop returns exactly KnightMoves, in loop order |
| Boards.Board.GetKnightThreats | src/chess/threat_map.rs:90-107 | the triple loop returns exactly KnightThreats, in loop order |
| Boards.Board.GetKingMoves | src/chess/board_moves.rs:184-203 | the row and column loops return exactly KingMoves |
| Boards.Board.GetKingThreats | src/chess/threat_map.rs:177-192 | the row and column loops return exactly KingThreats |
| Boards.Board.GetPawnMoves | src/chess/board_moves.rs:50-89 | returns exactly PawnMoves: the pushes, then the captures, then the en-passant squares on files d and e |
| Boards.Board.PawnCaptureLoop | src/chess/board_moves.rs:66-72 | appends the forward diagonals holding an enemy, left then right |
| Boards.Board.EnPassantLoop | src/chess/board_moves.rs:76-85 | appends the empty forward diagonals beside a neighbour flagged 0x20, left then right |
| Boards.Board.GetPawnThreats | src/chess/threat_map.rs:54-88 | returns exactly PawnThreats |
| Boards.Board.PawnAttackLoop | src/chess/threat_map.rs:62-68 | lists the on-board forward diagonals whose colour bit differs, left then right |
| Boards.Board.EnPassantThreatLoop | src/chess/threat_map.rs:71-85 | appends the empty forward diagonals beside an enemy flagged 0x20, left then right |
| Boards.Board.GetPseudoLegalMoves | src/chess/board_moves.rs:6-30 | dispatches on the kind and returns exactly PseudoLegalMoves |
| Boards.Board.GetPieceThreatMoves | src/chess/threat_map.rs:37-52 | dispatches on the given piece's kind and returns exactly PieceThreats |
| Boards.Board.GenerateThreatMaps | src/chess/threat_map.rs:9-34 | afterwards each map is exactly the set of squares that colour's pieces threaten (ThreatMap), and the squares are unchanged |
| Boards.Board.ScanRow | src/chess/threat_map.rs:14-29 | one pass of the column loop extends both maps by the next eight scanned squares |
| Boards.InsertAll | src/chess/threat_map.rs:20-27 | inserting a move list gives the old set joined with the list's elements |
| Boards.Board.GetKing | src/chess/board_assoc.rs:43 | the reading-order scan returns the first king of that colour |
| Boards.Board.KingInCheck | src/chess/board_assoc.rs:41-51 | rebuilds both maps and reports exactly whether the king's square is in the other colour's map |
| Boards.Board.SimulateMove | src/chess/board_moves.rs:40-44 | moving on a copy reports exactly whether the move leaves the king safe, and the board itself is unchanged |
| Boards.Board.GetLegalMoves | src/chess/board_moves.rs:32-48 | returns exactly LegalMoves: the names of the pseudo-legal destinations that leave the king safe, in order |

## Left out

- The game controller (`Game`, which src/unit_tests.rs drives) is defined outside the modelled files and is not modelled. src/lib.rs only declares the `chess` module and three test functions that build a board and print it. No modelled operation updates the 0x80 and 0x20 flags after a move, because `make_pseudo_legal_move` copies the byte verbatim. Nothing in the modelled files keeps turns or handles castling or checkmate. The generators only read the flags.
- `print_at`, `print_all` and `get_str` produce text for display and are not modelled.
- `piece_at`, `is_empty`, `copy` and `get_king` are defined outside the modelled files. They are modelled from their uses:
  - `piece_at` reads `board[c.1][c.0]`, as `make_pseudo_legal_move` indexes it (board_moves.rs:206-207);
  - `is_empty` tests the kind bits;
  - `copy` duplicates the squares;
  - `get_king` returns the first king of that colour in reading order. When a colour has exactly one king, `Grids.FindKingUnique` shows it returns that king.
- board.rs declares only the square array, but the generators also read and write `black_threat_map` and `white_threat_map` (threat_map.rs:32-33, board_assoc.rs:46-49). The `Board` class has both fields. They are sets, so the iteration order of the engine's hash sets is not modelled.
- `Coords.NumToFileRank`, `Coords.FileRankToNum` and `Grids.ConvertStrPos` require the inputs on which their `u8`/`i8` arithmetic cannot underflow or overflow, which the engine would reject with a panic; wrap-around is not modelled.
- `MoveRules.PawnMoves` requires the push squares to be on the board (`PawnPushesOnBoard`), because the engine reads them without a bounds check and would panic otherwise; a pawn on the far row is not modelled.
- `Legality.LegalMoves` requires the named square to be on the board and a moving piece's side to have a king, because the engine indexes the board with that square and looks the king up after every simulated move.
- Coordinates are unbounded integers; the engine's `i8` arithmetic never leaves the range −2..9 on the paths modelled, so no wrap-around is written out.
- The generators' unused `Option` wrappers and `Vec` capacities are not modelled; each generator returns its list directly.
- The unit tests (src/unit_tests.rs) are not modelled.
