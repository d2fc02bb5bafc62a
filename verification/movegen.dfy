/**
 * Pseudo-legal move generation: where each piece may go by its movement rule
 * and the board's occupancy, ignoring whether the mover's own king is left
 * attacked.
 *
 * The program holds two copies of this generator: one used by the attack
 * scan, and one inlined in the legality filter that also yields the pawn's
 * two-step from its home rank.  Both are `Generate`, told by `twoStep`.
 */
module MoveGen {
  import opened Pieces

  /** White pawns move toward row 0, Black pawns toward row 7. */
  function Direction(c: Color): int {
    if c == White then -1 else 1
  }

  function HomeRow(c: Color): int {
    if c == White then 6 else 1
  }

  /** The test each destination passes: on the board, and either empty or
      held by a piece of the other colour. */
  predicate CanMoveTo(b: Board, mover: Color, s: Square): (r: bool)
    ensures r <==> OnBoard(s) && !HasColor(b, s, mover)
  {
    OnBoard(s) && (At(b, s).Empty? || At(b, s).piece.color != mover)
  }

  predicate IsEmpty(b: Board, s: Square) {
    OnBoard(s) && At(b, s).Empty?
  }

  /** The program indexes the row ahead of a pawn with no bounds check, so it
      can only generate for a pawn that still has a row ahead of it. */
  predicate StepInRange(b: Board, s: Square)
    requires OnBoard(s)
  {
    At(b, s).Occupied? && At(b, s).piece.kind == Pawn ==>
      0 <= s.row + Direction(At(b, s).piece.color) < 8
  }

  /** No pawn of colour `c` stands on its last rank. */
  ghost predicate PawnsCanStep(b: Board, c: Color) {
    forall s :: OnBoard(s) && At(b, s) == Occupied(Piece(Pawn, c)) ==> 0 <= s.row + Direction(c) < 8
  }

  type Offset = (int, int)

  const KnightJumps: seq<Offset> := [(-2, -1), (-2, 1), (-1, -2), (-1, 2), (1, -2), (1, 2), (2, -1), (2, 1)]
  const KingSteps: seq<Offset> := [(-1, 0), (1, 0), (0, -1), (0, 1), (-1, -1), (-1, 1), (1, -1), (1, 1)]
  const Diagonals: seq<Offset> := [(-1, -1), (-1, 1), (1, -1), (1, 1)]
  const Orthogonals: seq<Offset> := [(-1, 0), (1, 0), (0, -1), (0, 1)]

  function Translate(s: Square, d: Offset): Square {
    Square(s.row + d.0, s.col + d.1)
  }

  /** The square `k` steps from `s` in direction `d`. */
  function RayPoint(s: Square, d: Offset, k: int): Square {
    Square(s.row + d.0 * k, s.col + d.1 * k)
  }

  predicate IsUnit(d: Offset) {
    -1 <= d.0 <= 1 && -1 <= d.1 <= 1 && d != (0, 0)
  }

  lemma RayPointLeavesOrigin(s: Square, d: Offset, k: int)
    requires IsUnit(d) && k >= 1
    ensures RayPoint(s, d, k) != s
  {
    if d.0 == 1 {
    } else if d.0 == -1 {
    } else if d.1 == 1 {
    } else {
    }
  }

  // ---------------------------------------------------------------------
  // The per-kind rules.

  /** Knight and king: each offset is kept when its square passes `CanMoveTo`. */
  function Jumps(b: Board, mover: Color, from: Square, offsets: seq<Offset>): (r: seq<Square>)
    ensures forall t :: t in r <==> exists d :: d in offsets && t == Translate(from, d) && CanMoveTo(b, mover, t)
  {
    if offsets == [] then []
    else
      var t := Translate(from, offsets[0]);
      assert forall d :: d in offsets <==> d == offsets[0] || d in offsets[1..];
      (if CanMoveTo(b, mover, t) then [t] else []) + Jumps(b, mover, from, offsets[1..])
  }

  /** One sliding ray, from step `i` on: empty squares are kept and the walk
      goes on; the first occupied square is kept only if it holds an opposing
      piece, and the walk stops there; the walk also stops at the board's
      edge and after step 7. */
  function Ray(b: Board, mover: Color, from: Square, d: Offset, i: int): (r: seq<Square>)
    requires IsUnit(d) && 1 <= i <= 8
    decreases 8 - i
    ensures forall t :: t in r ==> CanMoveTo(b, mover, t) && t != from
  {
    if i == 8 then []
    else
      var t := RayPoint(from, d, i);
      RayPointLeavesOrigin(from, d, i);
      if !CanMoveTo(b, mover, t) then []
      else if At(b, t).Occupied? then [t]
      else [t] + Ray(b, mover, from, d, i + 1)
  }

  predicate AllUnit(dirs: seq<Offset>) {
    forall d :: d in dirs ==> IsUnit(d)
  }

  /** Bishop, rook and queen: the rays in `dirs`, in order. */
  function Slides(b: Board, mover: Color, from: Square, dirs: seq<Offset>): (r: seq<Square>)
    requires AllUnit(dirs)
    ensures forall t :: t in r ==> CanMoveTo(b, mover, t) && t != from
  {
    if dirs == [] then []
    else Ray(b, mover, from, dirs[0], 1) + Slides(b, mover, from, dirs[1..])
  }

  /** Pawn of colour `c` at `from`: one step ahead onto an empty square, then
      (only when `twoStep`) a second step from the home row onto an empty
      square, then the two diagonal captures onto opposing pieces. */
  function PawnMoves(b: Board, c: Color, from: Square, twoStep: bool): (r: seq<Square>)
    requires OnBoard(from) && 0 <= from.row + Direction(c) < 8
    ensures forall t :: t in r ==> CanMoveTo(b, c, t) && t != from
  {
    var d := Direction(c);
    var ahead := Square(from.row + d, from.col);
    var beyond := Square(from.row + 2 * d, from.col);
    var left := Square(from.row + d, from.col - 1);
    var right := Square(from.row + d, from.col + 1);
    var pushes :=
      if CanMoveTo(b, c, ahead) && At(b, ahead).Empty? then
        [ahead] + (if twoStep && from.row == HomeRow(c) && At(b, beyond).Empty? then [beyond] else [])
      else [];
    pushes
    + (if from.col > 0 && At(b, left).Occupied? && At(b, left).piece.color != c then [left] else [])
    + (if from.col < 7 && At(b, right).Occupied? && At(b, right).piece.color != c then [right] else [])
  }

  lemma DirectionsAreUnit()
    ensures AllUnit(Diagonals) && AllUnit(Orthogonals)
  {
  }

  /** Dispatch on the kind of the piece at `from`; a queen slides along the
      diagonals first, then the orthogonals.  An empty origin has no moves. */
  function Generate(b: Board, from: Square, twoStep: bool): (r: seq<Square>)
    requires OnBoard(from) && StepInRange(b, from)
    ensures At(b, from).Empty? ==> r == []
    ensures At(b, from).Occupied? ==>
      forall t :: t in r ==> t != from && CanMoveTo(b, At(b, from).piece.color, t)
  {
    DirectionsAreUnit();
    match At(b, from)
    case Empty => []
    case Occupied(p) =>
      match p.kind
      case Pawn => PawnMoves(b, p.color, from, twoStep)
      case Knight => Jumps(b, p.color, from, KnightJumps)
      case Bishop => Slides(b, p.color, from, Diagonals)
      case Rook => Slides(b, p.color, from, Orthogonals)
      case Queen => Slides(b, p.color, from, Diagonals) + Slides(b, p.color, from, Orthogonals)
      case King => Jumps(b, p.color, from, KingSteps)
  }

  /** The generator the attack scan uses (no pawn two-step).  Nothing for an
      empty origin; every destination is on the board, differs from the
      origin, and is empty or holds a piece of the other colour. */
  function PseudoLegalMoves(b: Board, from: Square): (r: seq<Square>)
    requires OnBoard(from) && StepInRange(b, from)
    ensures At(b, from).Empty? ==> r == []
    ensures forall t :: t in r ==>
      && OnBoard(t) && t != from
      && (IsEmpty(b, t) || (At(b, t).Occupied? && At(b, t).piece.color != At(b, from).piece.color))
  {
    Generate(b, from, false)
  }

  /** The generator inlined in the legality filter: the same rules plus the
      pawn two-step, with the same guarantees on its destinations. */
  function CandidateMoves(b: Board, from: Square): (r: seq<Square>)
    requires OnBoard(from) && StepInRange(b, from)
    ensures At(b, from).Empty? ==> r == []
    ensures forall t :: t in r ==>
      && OnBoard(t) && t != from
      && (IsEmpty(b, t) || (At(b, t).Occupied? && At(b, t).piece.color != At(b, from).piece.color))
  {
    Generate(b, from, true)
  }

  // ---------------------------------------------------------------------
  // Sliding rays.

  /** Every ray square from step `i` up to, not including, step `k` is empty. */
  ghost predicate ClearBetween(b: Board, from: Square, d: Offset, i: int, k: int) {
    forall m :: i <= m < k ==> IsEmpty(b, RayPoint(from, d, m))
  }

  /** `t` is the step-`k` square of ray `d` for some `k` in [i, 8), passes
      `CanMoveTo`, and nothing stands between step `i` and it. */
  ghost predicate ReachesAlong(b: Board, mover: Color, from: Square, d: Offset, i: int, t: Square) {
    exists k :: i <= k < 8 && t == RayPoint(from, d, k) && CanMoveTo(b, mover, t) && ClearBetween(b, from, d, i, k)
  }

  /** A ray yields exactly the unobstructed squares along it. */
  lemma {:induction false} RayExactly(b: Board, mover: Color, from: Square, d: Offset, i: int, t: Square)
    requires IsUnit(d) && 1 <= i <= 8
    decreases 8 - i
    ensures t in Ray(b, mover, from, d, i) <==> ReachesAlong(b, mover, from, d, i, t)
  {
    if i < 8 {
      var s := RayPoint(from, d, i);
      RayExactly(b, mover, from, d, i + 1, t);
      if t in Ray(b, mover, from, d, i) {
        if t == s {
          assert ClearBetween(b, from, d, i, i);
        } else {
          var k :| i + 1 <= k < 8 && t == RayPoint(from, d, k) && CanMoveTo(b, mover, t) && ClearBetween(b, from, d, i + 1, k);
          assert ClearBetween(b, from, d, i, k);
        }
      }
      if ReachesAlong(b, mover, from, d, i, t) {
        var k :| i <= k < 8 && t == RayPoint(from, d, k) && CanMoveTo(b, mover, t) && ClearBetween(b, from, d, i, k);
        if k > i {
          assert IsEmpty(b, s);
          assert ClearBetween(b, from, d, i + 1, k);
        }
      }
    }
  }

  /** The rays of `dirs` yield exactly the squares some ray reaches. */
  lemma {:induction false} SlidesExactly(b: Board, mover: Color, from: Square, dirs: seq<Offset>, t: Square)
    requires AllUnit(dirs)
    ensures t in Slides(b, mover, from, dirs) <==> exists d :: d in dirs && ReachesAlong(b, mover, from, d, 1, t)
  {
    if dirs != [] {
      RayExactly(b, mover, from, dirs[0], 1, t);
      SlidesExactly(b, mover, from, dirs[1..], t);
      assert forall d :: d in dirs <==> d == dirs[0] || d in dirs[1..];
    }
  }

  function SlideDirections(k: Kind): seq<Offset> {
    match k
    case Bishop => Diagonals
    case Rook => Orthogonals
    case _ => Diagonals + Orthogonals
  }

  /** A bishop, rook or queen reaches exactly the squares along its
      directions that pass `CanMoveTo` with every square strictly between
      the origin and the destination empty. */
  lemma SlidingMovesExactly(b: Board, from: Square, t: Square)
    requires OnBoard(from) && At(b, from).Occupied?
    requires At(b, from).piece.kind in {Bishop, Rook, Queen}
    ensures var p := At(b, from).piece;
      t in PseudoLegalMoves(b, from) <==>
        exists d :: d in SlideDirections(p.kind) && ReachesAlong(b, p.color, from, d, 1, t)
  {
    var p := At(b, from).piece;
    DirectionsAreUnit();
    SlidesExactly(b, p.color, from, Diagonals, t);
    SlidesExactly(b, p.color, from, Orthogonals, t);
  }

  /** A ray never reads its own origin square. */
  lemma {:induction false} RayIgnoresOrigin(b: Board, mover: Color, from: Square, d: Offset, i: int, x: Cell)
    requires IsUnit(d) && 1 <= i <= 8 && OnBoard(from)
    decreases 8 - i
    ensures Ray(Put(b, from, x), mover, from, d, i) == Ray(b, mover, from, d, i)
  {
    if i < 8 {
      RayPointLeavesOrigin(from, d, i);
      RayIgnoresOrigin(b, mover, from, d, i + 1, x);
    }
  }

  lemma {:induction false} SlidesIgnoreOrigin(b: Board, mover: Color, from: Square, dirs: seq<Offset>, x: Cell)
    requires AllUnit(dirs) && OnBoard(from)
    ensures Slides(Put(b, from, x), mover, from, dirs) == Slides(b, mover, from, dirs)
  {
    if dirs != [] {
      RayIgnoresOrigin(b, mover, from, dirs[0], 1, x);
      SlidesIgnoreOrigin(b, mover, from, dirs[1..], x);
    }
  }

  /** A queen moves exactly as a bishop on its square followed by a rook on
      its square. */
  lemma QueenIsBishopThenRook(b: Board, from: Square, c: Color)
    requires OnBoard(from) && At(b, from) == Occupied(Piece(Queen, c))
    ensures PseudoLegalMoves(b, from)
         == PseudoLegalMoves(Put(b, from, Occupied(Piece(Bishop, c))), from)
          + PseudoLegalMoves(Put(b, from, Occupied(Piece(Rook, c))), from)
  {
    DirectionsAreUnit();
    var bishop := Put(b, from, Occupied(Piece(Bishop, c)));
    var rook := Put(b, from, Occupied(Piece(Rook, c)));
    assert PseudoLegalMoves(b, from) == Slides(b, c, from, Diagonals) + Slides(b, c, from, Orthogonals);
    assert PseudoLegalMoves(bishop, from) == Slides(bishop, c, from, Diagonals);
    assert PseudoLegalMoves(rook, from) == Slides(rook, c, from, Orthogonals);
    SlidesIgnoreOrigin(b, c, from, Diagonals, Occupied(Piece(Bishop, c)));
    SlidesIgnoreOrigin(b, c, from, Orthogonals, Occupied(Piece(Rook, c)));
  }

  /** Knights and kings reach exactly their offsets that pass `CanMoveTo`. */
  lemma JumpingMovesExactly(b: Board, from: Square, t: Square)
    requires OnBoard(from) && At(b, from).Occupied?
    requires At(b, from).piece.kind in {Knight, King}
    ensures var p := At(b, from).piece;
      t in PseudoLegalMoves(b, from) <==>
        exists d :: d in (if p.kind == Knight then KnightJumps else KingSteps)
                 && t == Translate(from, d) && CanMoveTo(b, p.color, t)
  {
  }

  // ---------------------------------------------------------------------
  // Pawns.

  predicate IsPawn(b: Board, s: Square)
    requires OnBoard(s)
  {
    At(b, s).Occupied? && At(b, s).piece.kind == Pawn
  }

  /** Straight step one row ahead onto an empty square. */
  ghost predicate PawnAdvance(b: Board, from: Square, t: Square)
    requires OnBoard(from) && IsPawn(b, from)
  {
    t == Square(from.row + Direction(At(b, from).piece.color), from.col) && IsEmpty(b, t)
  }

  /** Two rows ahead from the home row, both squares empty. */
  ghost predicate IsDoubleStep(b: Board, from: Square, t: Square)
    requires OnBoard(from) && IsPawn(b, from)
  {
    var d := Direction(At(b, from).piece.color);
    && from.row == HomeRow(At(b, from).piece.color)
    && IsEmpty(b, Square(from.row + d, from.col))
    && t == Square(from.row + 2 * d, from.col) && IsEmpty(b, t)
  }

  /** One row ahead and one column aside, onto a piece of the other colour. */
  ghost predicate PawnCapture(b: Board, from: Square, t: Square)
    requires OnBoard(from) && IsPawn(b, from)
  {
    && t.row == from.row + Direction(At(b, from).piece.color)
    && (t.col == from.col - 1 || t.col == from.col + 1)
    && OnBoard(t) && At(b, t).Occupied? && At(b, t).piece.color != At(b, from).piece.color
  }

  /** The attack-scan generator moves a pawn straight only onto an empty
      square and diagonally only onto an opposing piece, and never two rows. */
  lemma PawnPseudoLegalExactly(b: Board, from: Square, t: Square)
    requires OnBoard(from) && StepInRange(b, from) && IsPawn(b, from)
    ensures t in PseudoLegalMoves(b, from) <==> PawnAdvance(b, from, t) || PawnCapture(b, from, t)
    ensures t in PseudoLegalMoves(b, from) ==> t.row == from.row + Direction(At(b, from).piece.color)
  {
  }

  /** The filter's generator yields exactly what the attack-scan generator
      yields plus the two-step; for any piece but a pawn the two agree. */
  lemma CandidatesAddOnlyDoubleStep(b: Board, from: Square, t: Square)
    requires OnBoard(from) && StepInRange(b, from)
    ensures !IsPawn(b, from) ==> CandidateMoves(b, from) == PseudoLegalMoves(b, from)
    ensures IsPawn(b, from) ==>
      (t in CandidateMoves(b, from) <==> t in PseudoLegalMoves(b, from) || IsDoubleStep(b, from, t))
  {
  }

  /** A two-step destination is empty, so a candidate move onto an occupied
      square is also a pseudo-legal move: the two generators agree on captures. */
  lemma CandidateCaptureIsPseudoLegal(b: Board, from: Square, t: Square)
    requires OnBoard(from) && StepInRange(b, from)
    requires t in CandidateMoves(b, from) && OnBoard(t) && At(b, t).Occupied?
    ensures t in PseudoLegalMoves(b, from)
  {
    CandidatesAddOnlyDoubleStep(b, from, t);
  }
}
