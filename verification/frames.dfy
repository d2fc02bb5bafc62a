/**
 * Move generation reads other squares only for their occupancy and colour.
 * Two boards that agree on who stands where (but perhaps not on which kind)
 * give every piece the same pseudo-legal moves.  This is what makes the
 * legality filter's simulation, which skips promotion, agree with the board
 * the move really produces.
 */
module Frames {
  import opened Pieces
  import opened MoveGen
  import opened Attacks

  /** Same occupancy and same colour on every square. */
  ghost predicate SameColors(b1: Board, b2: Board) {
    forall s :: OnBoard(s) ==>
      && (At(b1, s).Empty? <==> At(b2, s).Empty?)
      && (At(b1, s).Occupied? ==> At(b1, s).piece.color == At(b2, s).piece.color)
  }

  lemma {:induction false} RaySameColors(b1: Board, b2: Board, mover: Color, from: Square, d: Offset, i: int)
    requires SameColors(b1, b2) && IsUnit(d) && 1 <= i <= 8
    decreases 8 - i
    ensures Ray(b1, mover, from, d, i) == Ray(b2, mover, from, d, i)
  {
    if i < 8 {
      RaySameColors(b1, b2, mover, from, d, i + 1);
    }
  }

  lemma {:induction false} SlidesSameColors(b1: Board, b2: Board, mover: Color, from: Square, dirs: seq<Offset>)
    requires SameColors(b1, b2) && AllUnit(dirs)
    ensures Slides(b1, mover, from, dirs) == Slides(b2, mover, from, dirs)
  {
    if dirs != [] {
      RaySameColors(b1, b2, mover, from, dirs[0], 1);
      SlidesSameColors(b1, b2, mover, from, dirs[1..]);
    }
  }

  lemma {:induction false} JumpsSameColors(b1: Board, b2: Board, mover: Color, from: Square, offsets: seq<Offset>)
    requires SameColors(b1, b2)
    ensures Jumps(b1, mover, from, offsets) == Jumps(b2, mover, from, offsets)
  {
    if offsets != [] {
      JumpsSameColors(b1, b2, mover, from, offsets[1..]);
    }
  }

  lemma PawnMovesSameColors(b1: Board, b2: Board, c: Color, from: Square, twoStep: bool)
    requires SameColors(b1, b2) && OnBoard(from) && 0 <= from.row + Direction(c) < 8
    ensures PawnMoves(b1, c, from, twoStep) == PawnMoves(b2, c, from, twoStep)
  {
    var d := Direction(c);
    assert At(b1, Square(from.row + d, from.col)).Empty? <==> At(b2, Square(from.row + d, from.col)).Empty?;
    if from.col > 0 {
      var left := Square(from.row + d, from.col - 1);
      assert At(b1, left).Empty? <==> At(b2, left).Empty?;
    }
    if from.col < 7 {
      var right := Square(from.row + d, from.col + 1);
      assert At(b1, right).Empty? <==> At(b2, right).Empty?;
    }
    if twoStep && from.row == HomeRow(c) {
      var beyond := Square(from.row + 2 * d, from.col);
      assert At(b1, beyond).Empty? <==> At(b2, beyond).Empty?;
    }
  }

  /** A piece standing on the same square of two boards that agree on
      colours has the same pseudo-legal moves on both. */
  lemma PseudoLegalSameColors(b1: Board, b2: Board, s: Square)
    requires SameColors(b1, b2) && OnBoard(s) && At(b1, s) == At(b2, s) && StepInRange(b1, s)
    ensures PseudoLegalMoves(b1, s) == PseudoLegalMoves(b2, s)
  {
    DirectionsAreUnit();
    if At(b1, s).Occupied? {
      var p := At(b1, s).piece;
      match p.kind
      case Pawn => PawnMovesSameColors(b1, b2, p.color, s, false);
      case Knight => JumpsSameColors(b1, b2, p.color, s, KnightJumps);
      case Bishop => SlidesSameColors(b1, b2, p.color, s, Diagonals);
      case Rook => SlidesSameColors(b1, b2, p.color, s, Orthogonals);
      case Queen =>
        SlidesSameColors(b1, b2, p.color, s, Diagonals);
        SlidesSameColors(b1, b2, p.color, s, Orthogonals);
      case King => JumpsSameColors(b1, b2, p.color, s, KingSteps);
    }
  }

  /** Attacks by colour `c` agree on two boards that agree on colours and
      hold the same pieces wherever `c` stands. */
  lemma AttackedSameColors(b1: Board, b2: Board, target: Square, c: Color)
    requires SameColors(b1, b2) && PawnsCanStep(b1, c) && PawnsCanStep(b2, c)
    requires forall s :: OnBoard(s) && HasColor(b1, s, c) ==> At(b1, s) == At(b2, s)
    ensures Attacked(b1, target, c) <==> Attacked(b2, target, c)
  {
    forall s | OnBoard(s) && HasColor(b1, s, c)
      ensures AttacksFrom(b1, s, c, target) <==> AttacksFrom(b2, s, c, target)
    {
      if At(b1, s).piece.kind == Pawn {
        assert At(b1, s) == Occupied(Piece(Pawn, c));
      }
      PseudoLegalSameColors(b1, b2, s);
    }
    if Attacked(b2, target, c) {
      var s :| AttacksFrom(b2, s, c, target);
      assert HasColor(b1, s, c);
    }
  }
}
