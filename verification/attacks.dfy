/**
 * Attack detection and king search: both scan the 64 squares in row-major
 * order (row 0 first, column 0 first within a row).  The attack scan asks
 * the pseudo-legal generator, never the legality filter, so it does not
 * recurse into legality.
 */
module Attacks {
  import opened Pieces
  import opened MoveGen

  /** Row-major position of a square: 0 for (0,0), 63 for (7,7). */
  function Index(s: Square): int {
    8 * s.row + s.col
  }

  function SquareAt(k: int): Square {
    Square(k / 8, k % 8)
  }

  lemma SquareAtIndex(k: int)
    requires 0 <= k < 64
    ensures OnBoard(SquareAt(k)) && Index(SquareAt(k)) == k
    ensures forall s :: OnBoard(s) && Index(s) == k ==> s == SquareAt(k)
  {
  }

  /** The piece on `s` has colour `attacker` and `target` among its
      pseudo-legal destinations. */
  predicate AttacksFrom(b: Board, s: Square, attacker: Color, target: Square)
    requires PawnsCanStep(b, attacker)
  {
    OnBoard(s) && HasColor(b, s, attacker) && target in PseudoLegalMoves(b, s)
  }

  /** Some piece of `attacker` could move onto `target`. */
  ghost predicate Attacked(b: Board, target: Square, attacker: Color)
    requires PawnsCanStep(b, attacker)
  {
    exists s :: AttacksFrom(b, s, attacker, target)
  }

  function AttackScan(b: Board, target: Square, attacker: Color, k: int): (r: bool)
    requires PawnsCanStep(b, attacker) && 0 <= k <= 64
    decreases 64 - k
    ensures r <==> exists s :: k <= Index(s) && AttacksFrom(b, s, attacker, target)
  {
    if k == 64 then false
    else
      SquareAtIndex(k);
      AttacksFrom(b, SquareAt(k), attacker, target) || AttackScan(b, target, attacker, k + 1)
  }

  /** True exactly when some piece of `attacker` has `target` among its
      pseudo-legal destinations.  Pawn forward steps count, as in the
      program; no pawn of the attacking side may stand on its last rank. */
  function IsSquareUnderAttack(b: Board, target: Square, attacker: Color): (r: bool)
    requires PawnsCanStep(b, attacker)
    ensures r <==> Attacked(b, target, attacker)
  {
    AttackScan(b, target, attacker, 0)
  }

  function KingScan(b: Board, c: Color, k: int): (r: Option<Square>)
    requires 0 <= k <= 64
    decreases 64 - k
    ensures r.Some? ==>
      && IsKingAt(b, r.value, c) && k <= Index(r.value)
      && forall s :: IsKingAt(b, s, c) && k <= Index(s) ==> Index(r.value) <= Index(s)
    ensures r.None? ==> forall s :: IsKingAt(b, s, c) ==> Index(s) < k
  {
    if k == 64 then None
    else
      SquareAtIndex(k);
      if At(b, SquareAt(k)) == Occupied(Piece(King, c)) then Some(SquareAt(k))
      else KingScan(b, c, k + 1)
  }

  /** The first king of colour `c` in row-major order, or None when there is
      no such king. */
  function FindKingPosition(b: Board, c: Color): (r: Option<Square>)
    ensures r.Some? ==> IsKingAt(b, r.value, c)
    ensures r.Some? ==> forall s :: IsKingAt(b, s, c) ==> Index(r.value) <= Index(s)
    ensures r.None? <==> !HasKing(b, c)
  {
    KingScan(b, c, 0)
  }

  /** With a single king on the board the search finds that king. */
  lemma FindsTheOnlyKing(b: Board, c: Color, k: Square)
    requires OneKing(b, c) && IsKingAt(b, k, c)
    ensures FindKingPosition(b, c) == Some(k)
  {
  }

  /** The quirk the attack scan keeps: a pawn "attacks" the empty square
      straight ahead of it, because the scan reuses the move generator. */
  lemma PawnAttacksSquareAhead(b: Board, s: Square, c: Color)
    requires PawnsCanStep(b, c) && OnBoard(s) && At(b, s) == Occupied(Piece(Pawn, c))
    requires IsEmpty(b, Square(s.row + Direction(c), s.col))
    ensures Attacked(b, Square(s.row + Direction(c), s.col), c)
  {
    assert AttacksFrom(b, s, c, Square(s.row + Direction(c), s.col));
  }

  /** On an occupied target the quirk is harmless: a pawn attacks an occupied
      square only diagonally. */
  lemma PawnAttacksOccupiedDiagonally(b: Board, s: Square, c: Color, target: Square)
    requires PawnsCanStep(b, c) && OnBoard(s) && At(b, s) == Occupied(Piece(Pawn, c))
    requires OnBoard(target) && At(b, target).Occupied?
    requires AttacksFrom(b, s, c, target)
    ensures target.row == s.row + Direction(c) && (target.col == s.col - 1 || target.col == s.col + 1)
  {
    PawnPseudoLegalExactly(b, s, target);
  }
}
