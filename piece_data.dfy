/** The two enumerations shared by the whole engine. */
module PieceData {

  /** The kinds of chess piece; `None` marks an empty square. */
  datatype PieceType = None | Pawn | Knight | Bishop | Rook | Queen | King

  /** The colour of a piece, and of the side to move. */
  datatype Colour = White | Black
}
