/**
 * The legality filter: a candidate move is kept when, on a copy of the board
 * with the piece moved and its origin cleared (no promotion), the mover's
 * king is not attacked by the other colour.
 */
module Legality {
  import opened Pieces
  import opened MoveGen
  import opened Attacks

  /** What the program relies on without checking it: exactly one king per
      colour (it dereferences the king search's result), and no pawn on its
      last rank (it indexes the row ahead of a pawn unchecked). */
  ghost predicate WellFormed(b: Board) {
    && OneKing(b, White) && OneKing(b, Black)
    && PawnsCanStep(b, White) && PawnsCanStep(b, Black)
  }

  lemma WellFormedPawnCanStep(b: Board, s: Square)
    requires WellFormed(b) && OnBoard(s)
    ensures StepInRange(b, s)
  {
    if At(b, s).Occupied? && At(b, s).piece.kind == Pawn {
      var c := At(b, s).piece.color;
      assert At(b, s) == Occupied(Piece(Pawn, c));
    }
  }

  /** The copy the filter examines: the piece on `to`, its origin emptied. */
  function Simulate(b: Board, from: Square, to: Square): (r: Board)
    requires OnBoard(from) && OnBoard(to)
    ensures At(r, from) == Empty
    ensures from != to ==> At(r, to) == At(b, from)
    ensures forall s :: OnBoard(s) && s != from && s != to ==> At(r, s) == At(b, s)
  {
    Put(Put(b, to, At(b, from)), from, Empty)
  }

  /** What a candidate move may assume about its destination. */
  predicate IsTarget(b: Board, from: Square, to: Square)
    requires OnBoard(from)
  {
    At(b, from).Occupied? && to != from && CanMoveTo(b, At(b, from).piece.color, to)
  }

  /** Moving a piece to a square not held by its own side leaves exactly one
      king of its colour, and adds no pawn of the other colour. */
  lemma SimulationKeepsMoverKing(b: Board, from: Square, to: Square)
    requires WellFormed(b) && OnBoard(from) && IsTarget(b, from, to)
    ensures OneKing(Simulate(b, from, to), At(b, from).piece.color)
    ensures PawnsCanStep(Simulate(b, from, to), Opponent(At(b, from).piece.color))
  {
    var c := At(b, from).piece.color;
    if c == White {
      assert OneKing(b, c) && PawnsCanStep(b, Opponent(c));
    } else {
      assert OneKing(b, c) && PawnsCanStep(b, Opponent(c));
    }
    SimulationMovesKing(b, from, to);
    SimulationKeepsPawns(b, from, to);
  }

  lemma SimulationMovesKing(b: Board, from: Square, to: Square)
    requires OnBoard(from) && IsTarget(b, from, to)
    requires OneKing(b, At(b, from).piece.color)
    ensures OneKing(Simulate(b, from, to), At(b, from).piece.color)
  {
    var c := At(b, from).piece.color;
    var t := Simulate(b, from, to);
    var k :| IsKingAt(b, k, c) && forall s :: IsKingAt(b, s, c) ==> s == k;
    var k' := if k == from then to else k;
    assert At(t, k') == At(b, k);
    assert IsKingAt(t, k', c);
    forall s | IsKingAt(t, s, c)
      ensures s == k'
    {
      if s == to {
        assert At(b, from) == Occupied(Piece(King, c));
        assert IsKingAt(b, from, c);
      } else {
        assert s != from;
        assert At(b, s) == At(t, s);
        assert IsKingAt(b, s, c);
      }
    }
  }

  lemma SimulationKeepsPawns(b: Board, from: Square, to: Square)
    requires OnBoard(from) && IsTarget(b, from, to)
    requires PawnsCanStep(b, Opponent(At(b, from).piece.color))
    ensures PawnsCanStep(Simulate(b, from, to), Opponent(At(b, from).piece.color))
  {
    var c := At(b, from).piece.color;
    var o := Opponent(c);
    var t := Simulate(b, from, to);
    forall s | OnBoard(s) && At(t, s) == Occupied(Piece(Pawn, o))
      ensures 0 <= s.row + Direction(o) < 8
    {
      assert s != from && s != to;
      assert At(b, s) == Occupied(Piece(Pawn, o));
    }
  }

  /** The mover's king is attacked once the piece has moved. */
  ghost predicate ExposesKing(b: Board, from: Square, to: Square)
    requires WellFormed(b) && OnBoard(from) && IsTarget(b, from, to)
  {
    var c := At(b, from).piece.color;
    var t := Simulate(b, from, to);
    SimulationKeepsMoverKing(b, from, to);
    exists k :: IsKingAt(t, k, c) && Attacked(t, k, Opponent(c))
  }

  /** The filter's test, as the program computes it: find the king on the
      copy and scan for attackers of its square. */
  predicate KingSafeAfter(b: Board, from: Square, to: Square): (r: bool)
    requires WellFormed(b) && OnBoard(from) && IsTarget(b, from, to)
    ensures r <==> !ExposesKing(b, from, to)
  {
    var c := At(b, from).piece.color;
    var t := Simulate(b, from, to);
    SimulationKeepsMoverKing(b, from, to);
    FindsTheOnlyKing(t, c, FindKingPosition(t, c).value);
    !IsSquareUnderAttack(t, FindKingPosition(t, c).value, Opponent(c))
  }

  /** The attack scan's pawn quirk never reaches the filter: on the trial
      board the mover's king stands on the square the scan asks about, so an
      opposing pawn can attack that square only diagonally. */
  lemma FilterSeesOnlyPawnCaptures(b: Board, from: Square, to: Square, k: Square, ps: Square)
    requires WellFormed(b) && OnBoard(from) && IsTarget(b, from, to)
    requires IsKingAt(Simulate(b, from, to), k, At(b, from).piece.color)
    requires OnBoard(ps)
    requires At(Simulate(b, from, to), ps) == Occupied(Piece(Pawn, Opponent(At(b, from).piece.color)))
    requires (SimulationKeepsMoverKing(b, from, to);
              AttacksFrom(Simulate(b, from, to), ps, Opponent(At(b, from).piece.color), k))
    ensures k.row == ps.row + Direction(Opponent(At(b, from).piece.color))
    ensures k.col == ps.col - 1 || k.col == ps.col + 1
  {
    SimulationKeepsMoverKing(b, from, to);
    PawnAttacksOccupiedDiagonally(Simulate(b, from, to), ps, Opponent(At(b, from).piece.color), k);
  }

  function KeepSafe(b: Board, from: Square, cands: seq<Square>): (r: seq<Square>)
    requires WellFormed(b) && OnBoard(from) && At(b, from).Occupied?
    requires forall t :: t in cands ==> IsTarget(b, from, t)
    ensures forall t :: t in r <==> t in cands && !ExposesKing(b, from, t)
  {
    if cands == [] then []
    else
      assert forall t :: t in cands <==> t == cands[0] || t in cands[1..];
      (if KingSafeAfter(b, from, cands[0]) then [cands[0]] else []) + KeepSafe(b, from, cands[1..])
  }

  /** The legal destinations of the piece on `from`: exactly the candidate
      destinations after which no king of the mover's colour is attacked.
      An empty origin has none. */
  function ValidMoves(b: Board, from: Square): (r: seq<Square>)
    requires WellFormed(b) && OnBoard(from)
    ensures At(b, from).Empty? ==> r == []
    ensures forall t :: t in r <==>
      && At(b, from).Occupied?
      && (WellFormedPawnCanStep(b, from); t in CandidateMoves(b, from))
      && !ExposesKing(b, from, t)
  {
    WellFormedPawnCanStep(b, from);
    if At(b, from).Empty? then []
    else KeepSafe(b, from, CandidateMoves(b, from))
  }

  /** Membership of `to` in the legal destinations of `from`. */
  function IsValidMove(b: Board, from: Square, to: Square): (r: bool)
    requires WellFormed(b) && OnBoard(from)
    ensures r ==> At(b, from).Occupied? && OnBoard(to) && to != from
    ensures r <==>
      && At(b, from).Occupied?
      && (WellFormedPawnCanStep(b, from); to in CandidateMoves(b, from))
      && !ExposesKing(b, from, to)
  {
    to in ValidMoves(b, from)
  }
}
