/**
 * get_legal_moves as a function of the grid: the pseudo-legal destinations, in order, whose
 * simulation on a copy leaves the mover's king out of check, written as square names.
 */
module Legality {
  import opened PieceData
  import opened Pieces
  import opened Coords
  import opened Grids
  import opened MoveRules
  import opened ThreatRules
  import opened Lists

  /** Moving the piece on c to q does not leave its own side in check. */
  predicate LeavesKingSafe(g: Grid, c: Coord, q: Coord)
    requires WithinBounds(c) && !IsEmptyAt(g, c) && HasKing(g, ColourAt(g, c))
    requires IsOpenTo(g, ColourAt(g, c), q)
  {
    MoveKeepsKing(g, c, q);
    !InCheck(MakeMove(g, c, q), ColourAt(g, c))
  }

  /** What the filter needs of a list of destinations for the piece on c. */
  ghost predicate Filterable(g: Grid, c: Coord, ms: seq<Coord>)
  {
    WithinBounds(c)
    && (forall q :: q in ms ==> IsOpenTo(g, ColourAt(g, c), q))
    && (ms != [] ==> !IsEmptyAt(g, c) && HasKing(g, ColourAt(g, c)))
  }

  /** The destinations of ms, in order, that leave the king safe. */
  function LegalFilter(g: Grid, c: Coord, ms: seq<Coord>): seq<Coord>
    requires Filterable(g, c, ms)
  {
    if ms == [] then []
    else
      var q := ms[|ms| - 1];
      LegalFilter(g, c, ms[..|ms| - 1]) + (if LeavesKingSafe(g, c, q) then [q] else [])
  }

  lemma {:induction false} LegalFilterMembership(g: Grid, c: Coord, ms: seq<Coord>, q: Coord)
    requires Filterable(g, c, ms)
    ensures q in LegalFilter(g, c, ms) <==> q in ms && LeavesKingSafe(g, c, q)
  {
    if ms != [] {
      var init := ms[..|ms| - 1];
      LegalFilterMembership(g, c, init, q);
      InSnoc(ms, q);
    }
  }

  /** The filter only drops destinations. */
  lemma LegalFilterWithin(g: Grid, c: Coord, ms: seq<Coord>)
    requires Filterable(g, c, ms)
    ensures forall q :: q in LegalFilter(g, c, ms) ==> q in ms
  {
    forall q | q in LegalFilter(g, c, ms)
      ensures q in ms
    {
      LegalFilterMembership(g, c, ms, q);
    }
  }

  /** The filter keeps order: filtering a concatenation concatenates the filtered parts. */
  lemma {:induction false} LegalFilterAppend(g: Grid, c: Coord, a: seq<Coord>, b: seq<Coord>)
    requires Filterable(g, c, a + b)
    ensures Filterable(g, c, a) && Filterable(g, c, b)
    ensures LegalFilter(g, c, a + b) == LegalFilter(g, c, a) + LegalFilter(g, c, b)
    decreases |b|
  {
    if b == [] {
      assert a + b == a;
    } else {
      var init, last := b[..|b| - 1], b[|b| - 1];
      assert (a + b)[..|a + b| - 1] == a + init && (a + b)[|a + b| - 1] == last;
      assert Filterable(g, c, a + init);
      LegalFilterAppend(g, c, a, init);
      var tail := if LeavesKingSafe(g, c, last) then [last] else [];
      assert LegalFilter(g, c, a + b) == LegalFilter(g, c, a + init) + tail;
      assert LegalFilter(g, c, b) == LegalFilter(g, c, init) + tail;
      var x, y := LegalFilter(g, c, a), LegalFilter(g, c, init);
      AppendAssoc(x, y, tail);
    }
  }

  /** What get_legal_moves needs of its square: the pseudo-legal moves are defined, and a piece there has a king. */
  ghost predicate TargetsDefined(g: Grid, c: Coord)
  {
    PseudoLegalDefined(g, c) && (!IsEmptyAt(g, c) ==> HasKing(g, ColourAt(g, c)))
  }

  /** The pseudo-legal moves of the piece on c that leave its king safe, in generation order. */
  function LegalTargets(g: Grid, c: Coord): seq<Coord>
    requires TargetsDefined(g, c)
  {
    PseudoTargetsFilterable(g, c);
    LegalFilter(g, c, PseudoLegalMoves(g, c))
  }

  lemma PseudoTargetsFilterable(g: Grid, c: Coord)
    requires TargetsDefined(g, c)
    ensures Filterable(g, c, PseudoLegalMoves(g, c))
  {
    forall q | q in PseudoLegalMoves(g, c)
      ensures IsOpenTo(g, ColourAt(g, c), q)
    {
      PseudoTargetsOpen(g, c, q);
    }
  }

  /** A destination is legal exactly when it is pseudo-legal and its simulation leaves the king safe. */
  lemma LegalTargetsMembership(g: Grid, c: Coord, q: Coord)
    requires TargetsDefined(g, c)
    ensures q in LegalTargets(g, c) <==>
            q in PseudoLegalMoves(g, c) && !IsEmptyAt(g, c) && HasKing(g, ColourAt(g, c)) &&
            (PseudoTargetsOpen(g, c, q);
             MoveKeepsKing(g, c, q);
             !InCheck(MakeMove(g, c, q), ColourAt(g, c)))
  {
    PseudoTargetsFilterable(g, c);
    LegalFilterMembership(g, c, PseudoLegalMoves(g, c), q);
  }

  /** num_to_filerank applied to each square in turn. */
  function Names(qs: seq<Coord>): (r: seq<string>)
    requires forall q :: q in qs ==> WithinBounds(q)
    ensures |r| == |qs|
  {
    if qs == [] then []
    else
      var q := qs[|qs| - 1];
      assert q in qs && WithinBounds(q);
      Names(qs[..|qs| - 1]) + [NumToFileRank(q)]
  }

  lemma NamesSnoc(qs: seq<Coord>, q: Coord)
    requires forall p :: p in qs ==> WithinBounds(p)
    requires WithinBounds(q)
    ensures Names(qs + [q]) == Names(qs) + [NumToFileRank(q)]
  {
    assert (qs + [q])[..|qs|] == qs;
  }

  /** Each name is a square name, and reading it back gives the square it was made from. */
  lemma {:induction false} NamesRoundTrip(qs: seq<Coord>)
    requires forall q :: q in qs ==> WithinBounds(q)
    ensures forall i :: 0 <= i < |qs| ==>
              IsSquareName(Names(qs)[i]) && Decodable(Names(qs)[i]) && FileRankToNum(Names(qs)[i]) == qs[i]
  {
    if qs != [] {
      var init := qs[..|qs| - 1];
      NamesRoundTrip(init);
      NumToFileRankRoundTrip(qs[|qs| - 1]);
      forall i | 0 <= i < |qs| - 1
        ensures Names(qs)[i] == Names(init)[i] && qs[i] == init[i]
      {
      }
    }
  }

  /** The names of the destinations of ms that leave the king safe, in order. */
  ghost function LegalNames(g: Grid, c: Coord, ms: seq<Coord>): seq<string>
    requires Filterable(g, c, ms)
  {
    LegalFilterWithin(g, c, ms);
    Names(LegalFilter(g, c, ms))
  }

  /**
   * One more destination: the names over the first n + 1 extend those over the first n by the
   * name of ms[n] exactly when moving there leaves the king safe.
   */
  lemma LegalNamesNext(g: Grid, c: Coord, ms: seq<Coord>, n: int)
    requires Filterable(g, c, ms) && 0 <= n < |ms|
    ensures Filterable(g, c, ms[..n]) && Filterable(g, c, ms[..n + 1])
    ensures !IsEmptyAt(g, c) && HasKing(g, ColourAt(g, c)) && IsOpenTo(g, ColourAt(g, c), ms[n])
    ensures LegalNames(g, c, ms[..n + 1]) ==
            LegalNames(g, c, ms[..n]) + (if LeavesKingSafe(g, c, ms[n]) then [NumToFileRank(ms[n])] else [])
  {
    assert ms[n] in ms;
    var init, next := ms[..n], ms[..n + 1];
    assert next[..|next| - 1] == init && next[|next| - 1] == ms[n];
    assert Filterable(g, c, init);
    var kept := LegalFilter(g, c, init);
    LegalFilterWithin(g, c, init);
    if LeavesKingSafe(g, c, ms[n]) {
      assert LegalFilter(g, c, next) == kept + [ms[n]];
      NamesSnoc(kept, ms[n]);
    } else {
      assert LegalFilter(g, c, next) == kept + [];
      assert kept + [] == kept;
    }
  }

  /** What get_legal_moves needs of its text: a readable square on the board, with its moves defined. */
  ghost predicate LegalMovesDefined(g: Grid, s: string)
  {
    Decodable(s) && WithinBounds(FileRankToNum(s)) && TargetsDefined(g, FileRankToNum(s))
  }

  /** get_legal_moves: the legal destinations of the piece on the named square, as names. */
  function LegalMoves(g: Grid, s: string): seq<string>
    requires LegalMovesDefined(g, s)
  {
    var c := FileRankToNum(s);
    LegalTargetsOnBoard(g, c);
    Names(LegalTargets(g, c))
  }

  lemma LegalTargetsOnBoard(g: Grid, c: Coord)
    requires TargetsDefined(g, c)
    ensures forall q :: q in LegalTargets(g, c) ==> WithinBounds(q)
  {
    forall q | q in LegalTargets(g, c)
      ensures WithinBounds(q)
    {
      LegalTargetsMembership(g, c, q);
      PseudoTargetsOpen(g, c, q);
    }
  }

  /**
   * The names returned are exactly the names of the legal destinations, each a valid square
   * name that reads back to its destination.
   */
  lemma LegalMovesNames(g: Grid, s: string)
    requires LegalMovesDefined(g, s)
    ensures var c, r := FileRankToNum(s), LegalMoves(g, s);
            |r| == |LegalTargets(g, c)| &&
            forall i :: 0 <= i < |r| ==>
              IsSquareName(r[i]) && FileRankToNum(r[i]) == LegalTargets(g, c)[i]
  {
    var c := FileRankToNum(s);
    LegalTargetsOnBoard(g, c);
    NamesRoundTrip(LegalTargets(g, c));
  }
}
