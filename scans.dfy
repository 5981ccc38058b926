/**
 * The square-scanning rules that move generation and threat generation share:
 * sliding rays, filtered candidate lists for knights and kings, and pawn diagonals.
 * Every list is built left to right, so a generator loop that has handled the first
 * k candidates holds exactly the rule applied to those k.
 */
module Scans {
  import opened PieceData
  import opened Pieces
  import opened Coords
  import opened Grids

  /** Forward for a pawn: White moves towards row 0, Black towards row 7. */
  function PawnDirection(colour: Colour): (d: int)
    ensures d == -1 <==> colour == White
    ensures d == 1 <==> colour == Black
  {
    match colour
    case White => -1
    case Black => 1
  }

  // ---------------------------------------------------------------- rays

  /** k copies of d added up, written without a product so that rays stay linear arithmetic. */
  function Scale(d: int, k: nat): int
  {
    if k == 0 then 0 else Scale(d, k - 1) + d
  }

  lemma {:induction false} ScaleProduct(d: int, k: nat)
    ensures Scale(d, k) == d * k
  {
    if k > 0 {
      ScaleProduct(d, k - 1);
    }
  }

  /** The square k steps from c along d: (c.0 + d.0 * k, c.1 + d.1 * k), by ScaleProduct. */
  function Step(c: Coord, d: Coord, k: nat): Coord
  {
    (c.0 + Scale(d.0, k), c.1 + Scale(d.1, k))
  }

  /**
   * The ray from c along d, from step k on (the generators start at 1 and stop after 8):
   * empty squares are taken; the first occupied square is taken if it is an enemy
   * (or always, for a threat ray) and ends the ray; the board edge ends it too.
   */
  function Ray(g: Grid, c: Coord, d: Coord, colour: Colour, k: nat, threat: bool): seq<Coord>
    decreases 9 - k
  {
    if k >= 9 then []
    else
      var q := Step(c, d, k);
      if !WithinBounds(q) then []
      else if IsEmptyAt(g, q) then [q] + Ray(g, c, d, colour, k + 1, threat)
      else if threat || ColourAt(g, q) != colour then [q]
      else []
  }

  /** Step j of the ray may not be taken: past the loop bound, off the board, or a friend on a move ray. */
  predicate Blocked(g: Grid, c: Coord, d: Coord, colour: Colour, j: nat, threat: bool)
  {
    j >= 9 || !WithinBounds(Step(c, d, j))
    || (!IsEmptyAt(g, Step(c, d, j)) && !threat && ColourAt(g, Step(c, d, j)) == colour)
  }

  /** A ray from step k has at most 9 - k squares, all on the board. */
  lemma {:induction false} RayOnBoard(g: Grid, c: Coord, d: Coord, colour: Colour, k: nat, threat: bool)
    requires k <= 9
    ensures |Ray(g, c, d, colour, k, threat)| <= 9 - k
    ensures forall q :: q in Ray(g, c, d, colour, k, threat) ==> WithinBounds(q)
    decreases 9 - k
  {
    if k < 9 {
      var q := Step(c, d, k);
      if WithinBounds(q) && IsEmptyAt(g, q) {
        RayOnBoard(g, c, d, colour, k + 1, threat);
        assert Ray(g, c, d, colour, k, threat) == [q] + Ray(g, c, d, colour, k + 1, threat);
      }
    }
  }

  /** Square i of a ray from step k is step k + i along d. */
  lemma {:induction false} RaySquares(g: Grid, c: Coord, d: Coord, colour: Colour, k: nat, threat: bool)
    requires k <= 9
    ensures forall i :: 0 <= i < |Ray(g, c, d, colour, k, threat)| ==> Ray(g, c, d, colour, k, threat)[i] == Step(c, d, k + i)
    decreases 9 - k
  {
    if k < 9 {
      var q := Step(c, d, k);
      if WithinBounds(q) && IsEmptyAt(g, q) {
        var r, rest := Ray(g, c, d, colour, k, threat), Ray(g, c, d, colour, k + 1, threat);
        RaySquares(g, c, d, colour, k + 1, threat);
        assert r == [q] + rest;
        forall i | 0 < i < |r|
          ensures r[i] == Step(c, d, k + i)
        {
          assert r[i] == rest[i - 1] && k + 1 + (i - 1) == k + i;
        }
      }
    }
  }

  /** The ray's squares are consecutive steps along d from step k, all on the board. */
  lemma RaySteps(g: Grid, c: Coord, d: Coord, colour: Colour, k: nat, threat: bool)
    requires k <= 9
    ensures |Ray(g, c, d, colour, k, threat)| <= 9 - k
    ensures forall i :: 0 <= i < |Ray(g, c, d, colour, k, threat)| ==>
              Ray(g, c, d, colour, k, threat)[i] == Step(c, d, k + i) && WithinBounds(Ray(g, c, d, colour, k, threat)[i])
  {
    RayOnBoard(g, c, d, colour, k, threat);
    RaySquares(g, c, d, colour, k, threat);
  }

  /** Every square of a ray before its last is empty. */
  lemma {:induction false} RayInnerEmpty(g: Grid, c: Coord, d: Coord, colour: Colour, k: nat, threat: bool)
    requires k <= 9
    ensures forall i :: 0 <= i < |Ray(g, c, d, colour, k, threat)| - 1 ==>
              WithinBounds(Ray(g, c, d, colour, k, threat)[i]) && IsEmptyAt(g, Ray(g, c, d, colour, k, threat)[i])
    decreases 9 - k
  {
    var r := Ray(g, c, d, colour, k, threat);
    if k < 9 {
      var q := Step(c, d, k);
      if WithinBounds(q) && IsEmptyAt(g, q) {
        var rest := Ray(g, c, d, colour, k + 1, threat);
        RayInnerEmpty(g, c, d, colour, k + 1, threat);
        assert r == [q] + rest;
        forall i | 0 < i < |r| - 1
          ensures WithinBounds(r[i]) && IsEmptyAt(g, r[i])
        {
          assert r[i] == rest[i - 1];
        }
      }
    }
  }

  /** A ray ends on the board at an empty square, an enemy, or (on a threat ray) a friend. */
  lemma {:induction false} RayLast(g: Grid, c: Coord, d: Coord, colour: Colour, k: nat, threat: bool)
    requires k <= 9
    ensures var r := Ray(g, c, d, colour, k, threat);
      r != [] ==> WithinBounds(r[|r| - 1]) &&
                  (IsEmptyAt(g, r[|r| - 1]) || threat || ColourAt(g, r[|r| - 1]) != colour)
    decreases 9 - k
  {
    var r := Ray(g, c, d, colour, k, threat);
    if k < 9 {
      var q := Step(c, d, k);
      if WithinBounds(q) && IsEmptyAt(g, q) {
        var rest := Ray(g, c, d, colour, k + 1, threat);
        RayLast(g, c, d, colour, k + 1, threat);
        assert r == [q] + rest;
        if rest != [] {
          assert r[|r| - 1] == rest[|rest| - 1];
        } else {
          assert r == [q];
        }
      }
    }
  }

  /** The list is empty or its last square is an empty square of the board. */
  predicate EndsEmpty(g: Grid, r: seq<Coord>)
  {
    r == [] || (WithinBounds(r[|r| - 1]) && IsEmptyAt(g, r[|r| - 1]))
  }

  /** When a ray is empty or ends on an empty square, the step after it is blocked. */
  lemma {:induction false} RayBlocked(g: Grid, c: Coord, d: Coord, colour: Colour, k: nat, threat: bool)
    requires k <= 9
    ensures EndsEmpty(g, Ray(g, c, d, colour, k, threat)) ==>
            Blocked(g, c, d, colour, k + |Ray(g, c, d, colour, k, threat)|, threat)
    decreases 9 - k
  {
    var r := Ray(g, c, d, colour, k, threat);
    if k < 9 {
      var q := Step(c, d, k);
      if !WithinBounds(q) {
        assert r == [];
      } else if IsEmptyAt(g, q) {
        var rest := Ray(g, c, d, colour, k + 1, threat);
        RayBlocked(g, c, d, colour, k + 1, threat);
        assert r == [q] + rest;
        assert k + |r| == k + 1 + |rest|;
        if rest != [] {
          assert r[|r| - 1] == rest[|rest| - 1];
        } else {
          assert r[|r| - 1] == q;
        }
        assert EndsEmpty(g, r) == EndsEmpty(g, rest);
      } else if threat || ColourAt(g, q) != colour {
        assert r == [q];
      } else {
        assert r == [] && Blocked(g, c, d, colour, k, threat);
      }
    } else {
      assert r == [];
    }
  }

  /**
   * Every square of a ray but the last is empty; the last is empty, an enemy or (threat ray)
   * any piece; and when the ray is empty or ends on an empty square, the next step is
   * blocked, so no square that should be on the ray is left out.
   */
  lemma RayStops(g: Grid, c: Coord, d: Coord, colour: Colour, k: nat, threat: bool)
    requires k <= 9
    ensures forall i :: 0 <= i < |Ray(g, c, d, colour, k, threat)| - 1 ==>
              WithinBounds(Ray(g, c, d, colour, k, threat)[i]) && IsEmptyAt(g, Ray(g, c, d, colour, k, threat)[i])
    ensures var r := Ray(g, c, d, colour, k, threat);
      && (r != [] ==> WithinBounds(r[|r| - 1]) &&
                      (IsEmptyAt(g, r[|r| - 1]) || threat || ColourAt(g, r[|r| - 1]) != colour))
      && (EndsEmpty(g, r) ==> Blocked(g, c, d, colour, k + |r|, threat))
  {
    RayInnerEmpty(g, c, d, colour, k, threat);
    RayLast(g, c, d, colour, k, threat);
    RayBlocked(g, c, d, colour, k, threat);
  }

  /** The move ray is a prefix of the threat ray: threats add at most the friend that stops a ray. */
  lemma {:induction false} RayMovesPrefixOfThreats(g: Grid, c: Coord, d: Coord, colour: Colour, k: nat)
    ensures var m, t := Ray(g, c, d, colour, k, false), Ray(g, c, d, colour, k, true);
      |m| <= |t| && t[..|m|] == m
    decreases 9 - k
  {
    if k < 9 {
      var q := Step(c, d, k);
      if WithinBounds(q) && IsEmptyAt(g, q) {
        RayMovesPrefixOfThreats(g, c, d, colour, k + 1);
        var m, t := Ray(g, c, d, colour, k + 1, false), Ray(g, c, d, colour, k + 1, true);
        assert ([q] + t)[..|[q] + m|] == [q] + t[..|m|];
      }
    }
  }

  /** The rays along each direction of dirs, one after the other. */
  function Rays(g: Grid, c: Coord, colour: Colour, dirs: seq<Coord>, threat: bool): seq<Coord>
  {
    if dirs == [] then []
    else Rays(g, c, colour, dirs[..|dirs| - 1], threat) + Ray(g, c, dirs[|dirs| - 1], colour, 1, threat)
  }

  /** One more direction: the rays over the first n + 1 extend those over the first n by the ray along dirs[n]. */
  lemma RaysStep(g: Grid, c: Coord, colour: Colour, dirs: seq<Coord>, n: int, threat: bool)
    requires 0 <= n < |dirs|
    ensures Rays(g, c, colour, dirs[..n + 1], threat) == Rays(g, c, colour, dirs[..n], threat) + Ray(g, c, dirs[n], colour, 1, threat)
  {
    assert dirs[..n + 1][..n] == dirs[..n];
  }

  /** A square is on the rays exactly when it is on the ray along one of the directions. */
  lemma {:induction false} RaysMembership(g: Grid, c: Coord, colour: Colour, dirs: seq<Coord>, threat: bool, q: Coord)
    ensures q in Rays(g, c, colour, dirs, threat) <==>
            exists i :: 0 <= i < |dirs| && q in Ray(g, c, dirs[i], colour, 1, threat)
  {
    if dirs != [] {
      var n := |dirs| - 1;
      var init := dirs[..n];
      var last := Ray(g, c, dirs[n], colour, 1, threat);
      RaysMembership(g, c, colour, init, threat, q);
      assert Rays(g, c, colour, dirs, threat) == Rays(g, c, colour, init, threat) + last;
      if q in Rays(g, c, colour, dirs, threat) {
        if q in Rays(g, c, colour, init, threat) {
          var i :| 0 <= i < |init| && q in Ray(g, c, init[i], colour, 1, threat);
          assert init[i] == dirs[i];
        } else {
          assert q in last;
        }
      }
      if exists i :: 0 <= i < |dirs| && q in Ray(g, c, dirs[i], colour, 1, threat) {
        var i :| 0 <= i < |dirs| && q in Ray(g, c, dirs[i], colour, 1, threat);
        if i < n {
          assert init[i] == dirs[i];
        }
      }
    }
  }

  /** Bishop directions in loop order: y direction outer, x direction inner. */
  const BishopDirections: seq<Coord> := [(-1, -1), (1, -1), (-1, 1), (1, 1)]

  /** Rook directions in loop order: horizontal (left, right), then vertical (up, down). */
  const RookDirections: seq<Coord> := [(-1, 0), (1, 0), (0, -1), (0, 1)]

  /** for direction_y in DIRECTIONS, for direction_x in DIRECTIONS: entry 2i + j is (DIRECTIONS[j], DIRECTIONS[i]). */
  lemma BishopOrder(i: int, j: int)
    requires 0 <= i < 2 && 0 <= j < 2
    ensures BishopDirections[2 * i + j] == (DIRECTIONS[j], DIRECTIONS[i])
  {
  }

  /** for axis in DIRECTIONS, for direction in DIRECTIONS: axis -1 steps the file, axis 1 the row. */
  lemma RookOrder(i: int, j: int)
    requires 0 <= i < 2 && 0 <= j < 2
    ensures RookDirections[2 * i + j] == if DIRECTIONS[i] == -1 then (DIRECTIONS[j], 0) else (0, DIRECTIONS[j])
  {
  }

  // ---------------------------------------------------------------- candidate lists

  /** How a generator filters its candidate squares. */
  datatype Sieve =
    | Moves(colour: Colour)         // on the board, and empty or held by the other colour
    | Threats                       // on the board, whatever stands there
    | ThreatsAround(centre: Coord)  // on the board, and not the centre square itself

  predicate Passes(g: Grid, s: Sieve, q: Coord)
  {
    WithinBounds(q) &&
    match s
    case Moves(colour) => IsEmptyAt(g, q) || ColourAt(g, q) != colour
    case Threats => true
    case ThreatsAround(centre) => q != centre
  }

  /** The candidates that pass, in candidate order. */
  function Keep(g: Grid, s: Sieve, qs: seq<Coord>): seq<Coord>
  {
    if qs == [] then []
    else Keep(g, s, qs[..|qs| - 1]) + (if Passes(g, s, qs[|qs| - 1]) then [qs[|qs| - 1]] else [])
  }

  /** The candidate at n, whose admission is already known, extends Keep over the first n. */
  lemma KeepNext(g: Grid, s: Sieve, qs: seq<Coord>, n: int, q: Coord, admitted: bool)
    requires 0 <= n < |qs| && qs[n] == q && admitted == Passes(g, s, q)
    ensures admitted ==> Keep(g, s, qs[..n + 1]) == Keep(g, s, qs[..n]) + [q]
    ensures !admitted ==> Keep(g, s, qs[..n + 1]) == Keep(g, s, qs[..n])
  {
    assert qs[..n + 1][..n] == qs[..n];
    var x := Keep(g, s, qs[..n]);
    if !admitted {
      assert x + [] == x;
    }
  }

  lemma {:induction false} KeepMembership(g: Grid, s: Sieve, qs: seq<Coord>, q: Coord)
    ensures q in Keep(g, s, qs) <==> q in qs && Passes(g, s, q)
  {
    if qs != [] {
      var init := qs[..|qs| - 1];
      KeepMembership(g, s, init, q);
      assert qs == init + [qs[|qs| - 1]];
    }
  }

  function Abs(n: int): nat
  {
    if n < 0 then -n else n
  }

  /** The eight knight jumps in loop order: x direction outer, y direction middle, (1, 2) before (2, 1). */
  function KnightCandidates(c: Coord): seq<Coord>
  {
    [(c.0 - 1, c.1 - 2), (c.0 - 2, c.1 - 1), (c.0 - 1, c.1 + 2), (c.0 - 2, c.1 + 1),
     (c.0 + 1, c.1 - 2), (c.0 + 2, c.1 - 1), (c.0 + 1, c.1 + 2), (c.0 + 2, c.1 + 1)]
  }

  predicate IsKnightJump(c: Coord, q: Coord)
  {
    (Abs(q.0 - c.0) == 1 && Abs(q.1 - c.1) == 2) || (Abs(q.0 - c.0) == 2 && Abs(q.1 - c.1) == 1)
  }

  /** Entry 4i + 2j + l is (c.0 + DIRECTIONS[i] * (1 + l), c.1 + DIRECTIONS[j] * (2 - l)). */
  lemma KnightOrder(c: Coord, i: int, j: int, l: int)
    requires 0 <= i < 2 && 0 <= j < 2 && 0 <= l < 2
    ensures KnightCandidates(c)[4 * i + 2 * j + l] == (c.0 + DIRECTIONS[i] * (1 + l), c.1 + DIRECTIONS[j] * (2 - l))
  {
    assert i == 0 || i == 1;
    assert j == 0 || j == 1;
    assert l == 0 || l == 1;
  }

  /** The eight candidates are exactly the L-shaped jumps from c. */
  lemma KnightJumps(c: Coord)
    ensures forall q :: q in KnightCandidates(c) <==> IsKnightJump(c, q)
  {
  }

  // ---------------------------------------------------------------- pawn diagonals

  /** The four rules that look at one forward diagonal of a pawn. */
  datatype PawnRule =
    | Capture          // move: an enemy piece stands on the diagonal
    | EnPassant        // move: the side neighbour carries 0x20 and the diagonal is empty
    | AttackThreat     // threat: the colour bit on the diagonal differs (empty squares read White)
    | EnPassantThreat  // threat: an enemy neighbour carrying 0x20 beside an empty diagonal

  /** Whether the rule admits the forward diagonal on side dx. */
  predicate PawnAdmits(g: Grid, c: Coord, colour: Colour, dx: int, rule: PawnRule)
  {
    var q := (c.0 + dx, c.1 + PawnDirection(colour));
    var n := (c.0 + dx, c.1);
    match rule
    case Capture => WithinBounds(q) && !IsEmptyAt(g, q) && ColourAt(g, q) != colour
    case EnPassant =>
      WithinBounds(n) && WithinBounds(q) && PieceAt(g, n) & EnPassantFlag == EnPassantFlag && IsEmptyAt(g, q)
    case AttackThreat => WithinBounds(q) && ColourAt(g, q) != colour
    case EnPassantThreat =>
      WithinBounds(q) && WithinBounds(n) && !IsEmptyAt(g, n) && IsEmptyAt(g, q)
      && ColourAt(g, n) != colour && PieceAt(g, n) & EnPassantFlag == EnPassantFlag
  }

  /** The forward diagonal on side dx when the rule admits it, else nothing. */
  function PawnDiagonal(g: Grid, c: Coord, colour: Colour, dx: int, rule: PawnRule): seq<Coord>
  {
    if PawnAdmits(g, c, colour, dx, rule) then [(c.0 + dx, c.1 + PawnDirection(colour))] else []
  }

  /** The rule applied to the side steps dxs in order. */
  function PawnDiagonals(g: Grid, c: Coord, colour: Colour, dxs: seq<int>, rule: PawnRule): seq<Coord>
  {
    if dxs == [] then []
    else PawnDiagonals(g, c, colour, dxs[..|dxs| - 1], rule) + PawnDiagonal(g, c, colour, dxs[|dxs| - 1], rule)
  }

  /**
   * The side dxs[n], whose admission is already known, extends the diagonals over the first n
   * offsets, written after whatever a generator collected before them.
   */
  lemma PawnDiagonalsNext(g: Grid, c: Coord, colour: Colour, dxs: seq<int>, n: int, rule: PawnRule, admitted: bool, before: seq<Coord>)
    requires 0 <= n < |dxs| && admitted == PawnAdmits(g, c, colour, dxs[n], rule)
    ensures admitted ==> before + PawnDiagonals(g, c, colour, dxs[..n + 1], rule) ==
                         before + PawnDiagonals(g, c, colour, dxs[..n], rule) + [(c.0 + dxs[n], c.1 + PawnDirection(colour))]
    ensures !admitted ==> before + PawnDiagonals(g, c, colour, dxs[..n + 1], rule) ==
                          before + PawnDiagonals(g, c, colour, dxs[..n], rule)
  {
    assert dxs[..n + 1][..n] == dxs[..n];
    var x := PawnDiagonals(g, c, colour, dxs[..n], rule);
    if !admitted {
      assert x + [] == x;
    }
  }

  /** Over DIRECTIONS a rule yields the left diagonal, then the right one, each only when admitted. */
  lemma PawnDiagonalsLeftThenRight(g: Grid, c: Coord, colour: Colour, rule: PawnRule, q: Coord)
    ensures PawnDiagonals(g, c, colour, DIRECTIONS, rule)
            == PawnDiagonal(g, c, colour, -1, rule) + PawnDiagonal(g, c, colour, 1, rule)
    ensures q in PawnDiagonals(g, c, colour, DIRECTIONS, rule) ==>
            q.1 == c.1 + PawnDirection(colour) && Abs(q.0 - c.0) == 1 && WithinBounds(q)
  {
    assert DIRECTIONS[..|DIRECTIONS| - 1] == [-1];
    assert [-1][..0] == [];
    assert PawnDiagonals(g, c, colour, [-1], rule) == PawnDiagonal(g, c, colour, -1, rule);
  }
}
