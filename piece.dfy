/**
 * A piece is one byte:
 *   bit 0      colour (0 White, 1 Black)
 *   bits 1..3  kind k stored as 2k (Pawn 2, Knight 4, Bishop 6, Rook 8, Queen 10, King 12; 0 None)
 *   bit 5      (0x20) the pawn may be captured en passant
 *   bit 7      (0x80) the piece has not moved yet
 * The readers are functions of the byte; the setters that overwrite the byte in place are
 * methods of the `Piece` class, which holds one byte.
 */
module Pieces {
  import opened PieceData

  type Byte = bv8

  /** Set on a piece that has not moved yet. */
  const NotMovedFlag: Byte := 0x80
  /** Set on a pawn that may be taken en passant. */
  const EnPassantFlag: Byte := 0x20
  /** Colour bit and kind bits. */
  const ColourMask: Byte := 0x01
  const TypeMask: Byte := 0x0E

  /** Unit steps along one axis: backwards, then forwards. */
  const DIRECTIONS: seq<int> := [-1, 1]

  /** The kind bits of a kind. */
  function TypeCode(t: PieceType): (k: Byte)
    ensures k & TypeMask == k && k <= 12
  {
    match t
    case None => 0
    case Pawn => 2
    case Knight => 4
    case Bishop => 6
    case Rook => 8
    case Queen => 10
    case King => 12
  }

  /** Piece::new: the byte of a fresh piece, carrying no flag. */
  function New(colour: Colour, kind: PieceType): (b: Byte)
    ensures GetColour(b) == colour && GetType(b) == kind
    ensures b & NotMovedFlag == 0 && b & EnPassantFlag == 0
    ensures b <= 13
  {
    (if colour == Black then 1 else 0) + TypeCode(kind)
  }

  /** The colour, read from bit 0 alone. */
  function GetColour(b: Byte): Colour
  {
    if b & ColourMask == 0 then White else Black
  }

  /** The kind, read from bits 1..3 alone; the unused pattern 14 reads as None. */
  function GetType(b: Byte): PieceType
  {
    var k := b & TypeMask;
    if k == 2 then Pawn
    else if k == 4 then Knight
    else if k == 6 then Bishop
    else if k == 8 then Rook
    else if k == 10 then Queen
    else if k == 12 then King
    else None
  }

  function GetPieceData(b: Byte): (d: (Colour, PieceType))
    ensures d.0 == Black <==> b & ColourMask == ColourMask
    ensures d.1 == None <==> b & TypeMask == 0 || b & TypeMask == 14
  {
    (GetColour(b), GetType(b))
  }

  /** The letter a kind is drawn with. */
  function Letter(t: PieceType): char
  {
    match t
    case None => '\U{25A0}'
    case Pawn => 'P'
    case Knight => 'N'
    case Bishop => 'B'
    case Rook => 'R'
    case Queen => 'Q'
    case King => 'K'
  }

  /** The icon, decoded from the kind bits directly; it always agrees with GetType. */
  function GetIcon(b: Byte): (icon: char)
    ensures icon == Letter(GetType(b))
    ensures icon == '\U{25A0}' <==> GetType(b) == None
  {
    var k := b & TypeMask;
    if k == 2 then 'P'
    else if k == 4 then 'N'
    else if k == 6 then 'B'
    else if k == 8 then 'R'
    else if k == 10 then 'Q'
    else if k == 12 then 'K'
    else '\U{25A0}'
  }

  /** A square is empty when the kind bits say None, whatever the other bits hold. */
  predicate IsEmpty(b: Byte)
  {
    GetType(b) == None
  }

  /** The byte set_type leaves behind: None clears the whole byte, any other kind replaces the kind bits only. */
  function WithType(b: Byte, t: PieceType): (r: Byte)
    ensures GetType(r) == t
    ensures t != None ==> r & 0xF1 == b & 0xF1
    ensures t == None ==> r == 0 && GetColour(r) == White && r & (NotMovedFlag | EnPassantFlag) == 0
  {
    if t == None then 0 else (b & 0xF1) | TypeCode(t)
  }

  /** The two flags and every other bit outside the low nibble are invisible to colour, kind and icon. */
  lemma FlagsInvisible(b: Byte, f: Byte)
    requires f & 0x0F == 0
    ensures GetColour(b ^ f) == GetColour(b)
    ensures GetType(b ^ f) == GetType(b)
    ensures GetIcon(b ^ f) == GetIcon(b)
  {
    assert (b ^ f) & ColourMask == b & ColourMask;
    assert (b ^ f) & TypeMask == b & TypeMask;
  }

  /** One piece held in place, for the operations that overwrite its byte. */
  class Piece {
    var data: Byte

    /** Piece::from_u8 */
    constructor FromU8(b: Byte)
      ensures data == b && AsU8() == b
    {
      data := b;
    }

    function AsU8(): (b: Byte)
      reads this
      ensures b == data
    {
      data
    }

    /** Used for promotion; setting None empties the square completely. */
    method SetType(t: PieceType)
      modifies this
      ensures data == WithType(old(data), t)
    {
      ghost var before := data;
      var kept := data & 0xF1;
      match t
      case None => data := 0;
      case Pawn => data := kept | 2;
      case Knight => data := kept | 4;
      case Bishop => data := kept | 6;
      case Rook => data := kept | 8;
      case Queen => data := kept | 10;
      case King => data := kept | 12;
      assert data == WithType(before, t);
    }

    method SetToNone()
      modifies this
      ensures data == 0 && IsEmpty(data) && GetColour(data) == White
    {
      SetType(None);
    }

    method SetData(b: Byte)
      modifies this
      ensures data == b && AsU8() == b
    {
      data := b;
    }
  }
}
