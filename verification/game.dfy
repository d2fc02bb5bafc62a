/**
 * The game state machine: applying a move (with auto-promotion), undo, the
 * end-of-game classification after each move, and the candidate pool of the
 * computer opponent.  The program keeps this state in globals; here it is a
 * `Game` value and every operation returns the next one.
 */
module Game {
  import opened Pieces
  import opened MoveGen
  import opened Attacks
  import opened Legality
  import opened Frames

  datatype Mode = Friend | Computer

  /** Win/loss/draw counters, from the human (White) side in computer mode. */
  datatype Stats = Stats(wins: nat, losses: nat, draws: nat)

  datatype Game = Game(
    board: Board,
    turn: Color,
    history: seq<Board>,  // boards before each applied move, oldest first
    mode: Mode,
    over: bool,
    stats: Stats)

  datatype Move = Move(from: Square, to: Square)

  datatype Status = Ongoing | Checkmate(loser: Color) | Stalemate

  // ---------------------------------------------------------------------
  // Applying a move.

  /** The board after moving the piece on `from` to `to` with `turn` to move:
      the destination gets the piece, or a queen of `turn`'s colour when a
      pawn lands on row 0 or 7; the origin is emptied; nothing else changes.
      Nothing is validated: the caller checks the move first. */
  function MovePiece(b: Board, from: Square, to: Square, turn: Color): (r: Board)
    requires OnBoard(from) && OnBoard(to)
    ensures from != to ==> At(r, from) == Empty
    ensures from != to ==>
      At(r, to) == (if IsPawn(b, from) && (to.row == 0 || to.row == 7) then Occupied(Piece(Queen, turn)) else At(b, from))
    ensures forall s :: OnBoard(s) && s != from && s != to ==> At(r, s) == At(b, s)
  {
    var moved := Simulate(b, from, to);
    if IsPawn(b, from) && (to.row == 0 || to.row == 7) then Put(moved, to, Occupied(Piece(Queen, turn)))
    else moved
  }

  /** `makeMove` without its closing status check: the pre-move board is
      pushed onto the history and the turn passes to the other side. */
  function ApplyMove(g: Game, from: Square, to: Square): (r: Game)
    requires OnBoard(from) && OnBoard(to)
    ensures r.board == MovePiece(g.board, from, to, g.turn)
    ensures r.turn == Opponent(g.turn)
    ensures r.history == g.history + [g.board] && |r.history| == |g.history| + 1
    ensures r.mode == g.mode && r.over == g.over && r.stats == g.stats
  {
    g.(board := MovePiece(g.board, from, to, g.turn), turn := Opponent(g.turn), history := g.history + [g.board])
  }

  // ---------------------------------------------------------------------
  // The side to move, its legal moves, and the game's end.

  predicate IsLegal(b: Board, c: Color, m: Move)
    requires WellFormed(b)
  {
    OnBoard(m.from) && HasColor(b, m.from, c) && m.to in ValidMoves(b, m.from)
  }

  ghost predicate HasLegalMove(b: Board, c: Color)
    requires WellFormed(b)
  {
    exists m :: IsLegal(b, c, m)
  }

  lemma WellFormedPawns(b: Board, c: Color)
    requires WellFormed(b)
    ensures PawnsCanStep(b, c) && OneKing(b, c)
  {
    if c == White {
    } else {
    }
  }

  /** Some king of colour `c` is attacked by the other colour. */
  ghost predicate InCheck(b: Board, c: Color)
    requires WellFormed(b)
  {
    WellFormedPawns(b, Opponent(c));
    exists k :: IsKingAt(b, k, c) && Attacked(b, k, Opponent(c))
  }

  function Pairs(from: Square, tos: seq<Square>): (r: seq<Move>)
    ensures forall m :: m in r <==> m.from == from && m.to in tos
  {
    if tos == [] then []
    else
      assert forall t :: t in tos <==> t == tos[0] || t in tos[1..];
      [Move(from, tos[0])] + Pairs(from, tos[1..])
  }

  function PoolFrom(b: Board, c: Color, k: int): (r: seq<Move>)
    requires WellFormed(b) && 0 <= k <= 64
    decreases 64 - k
    ensures forall m :: m in r <==> IsLegal(b, c, m) && k <= Index(m.from)
  {
    if k == 64 then []
    else
      var s := SquareAt(k);
      SquareAtIndex(k);
      (if HasColor(b, s, c) then Pairs(s, ValidMoves(b, s)) else []) + PoolFrom(b, c, k + 1)
  }

  /** Every legal move of colour `c`: its pieces in row-major order, each
      followed by its legal destinations.  A move is in the pool exactly when
      it is legal. */
  function LegalMovePool(b: Board, c: Color): (r: seq<Move>)
    requires WellFormed(b)
    ensures forall m :: m in r <==> IsLegal(b, c, m)
    ensures |r| == 0 <==> !HasLegalMove(b, c)
  {
    var r := PoolFrom(b, c, 0);
    assert |r| > 0 ==> r[0] in r;
    r
  }

  /** The position with `c` to move: over exactly when `c` has no legal move,
      and then checkmate of `c` when `c`'s king is attacked, stalemate
      otherwise. */
  function Evaluate(b: Board, c: Color): (r: Status)
    requires WellFormed(b)
    ensures r == Ongoing <==> HasLegalMove(b, c)
    ensures r == Checkmate(c) <==> !HasLegalMove(b, c) && InCheck(b, c)
    ensures r == Stalemate <==> !HasLegalMove(b, c) && !InCheck(b, c)
    ensures r.Checkmate? ==> r.loser == c
  {
    WellFormedPawns(b, c);
    WellFormedPawns(b, Opponent(c));
    if |LegalMovePool(b, c)| > 0 then Ongoing
    else
      var k := FindKingPosition(b, c).value;
      FindsTheOnlyKing(b, c, k);
      if IsSquareUnderAttack(b, k, Opponent(c)) then Checkmate(c) else Stalemate
  }

  /** The status check run after every move.  With moves left nothing
      changes.  Otherwise the game is over; in computer mode a mated White
      adds a loss, a mated Black adds a win, and a stalemate adds a draw. */
  function CheckGameStatus(g: Game): (r: Game)
    requires WellFormed(g.board)
    ensures r.board == g.board && r.turn == g.turn && r.history == g.history && r.mode == g.mode
    ensures HasLegalMove(g.board, g.turn) ==> r == g
    ensures !HasLegalMove(g.board, g.turn) ==> r.over
    ensures !HasLegalMove(g.board, g.turn) && g.mode == Friend ==> r.stats == g.stats
    ensures !HasLegalMove(g.board, g.turn) && g.mode == Computer ==>
      r.stats ==
        if !InCheck(g.board, g.turn) then g.stats.(draws := g.stats.draws + 1)
        else if g.turn == White then g.stats.(losses := g.stats.losses + 1)
        else g.stats.(wins := g.stats.wins + 1)
  {
    match Evaluate(g.board, g.turn)
    case Ongoing => g
    case Checkmate(loser) =>
      var stats :=
        if g.mode == Friend then g.stats
        else if loser == White then g.stats.(losses := g.stats.losses + 1)
        else g.stats.(wins := g.stats.wins + 1);
      g.(over := true, stats := stats)
    case Stalemate =>
      var stats := if g.mode == Friend then g.stats else g.stats.(draws := g.stats.draws + 1);
      g.(over := true, stats := stats)
  }

  /** The counters after the status check of board `b` with `c` to move:
      kept while `c` can move and in friend mode; otherwise a stalemate adds
      a draw, a mated White a loss and a mated Black a win. */
  ghost function Outcome(stats: Stats, mode: Mode, b: Board, c: Color): Stats
    requires WellFormed(b)
  {
    if HasLegalMove(b, c) || mode == Friend then stats
    else if !InCheck(b, c) then stats.(draws := stats.draws + 1)
    else if c == White then stats.(losses := stats.losses + 1)
    else stats.(wins := stats.wins + 1)
  }

  /** The status check updates the counters as `Outcome` says. */
  lemma StatusCheckScores(g: Game)
    requires WellFormed(g.board)
    ensures CheckGameStatus(g).stats == Outcome(g.stats, g.mode, g.board, g.turn)
  {
    if !HasLegalMove(g.board, g.turn) && g.mode == Computer {
      StatusCheckScoresOver(g);
    }
  }

  lemma StatusCheckScoresOver(g: Game)
    requires WellFormed(g.board) && !HasLegalMove(g.board, g.turn) && g.mode == Computer
    ensures CheckGameStatus(g).stats == Outcome(g.stats, g.mode, g.board, g.turn)
  {
    if InCheck(g.board, g.turn) {
      assert Outcome(g.stats, g.mode, g.board, g.turn) ==
        if g.turn == White then g.stats.(losses := g.stats.losses + 1)
        else g.stats.(wins := g.stats.wins + 1);
    } else {
      assert Outcome(g.stats, g.mode, g.board, g.turn) == g.stats.(draws := g.stats.draws + 1);
    }
  }

  // ---------------------------------------------------------------------
  // The invariant legal play keeps.

  /** A board the engine can work on with `turn` to move: well formed, and
      the side that just moved is not in check. */
  ghost predicate Consistent(b: Board, turn: Color) {
    && WellFormed(b)
    && (WellFormedPawns(b, turn);
        forall k :: IsKingAt(b, k, Opponent(turn)) ==> !Attacked(b, k, turn))
  }

  lemma PromotionKeepsColors(b: Board, from: Square, to: Square, turn: Color)
    requires OnBoard(from) && OnBoard(to) && from != to && HasColor(b, from, turn)
    ensures SameColors(Simulate(b, from, to), MovePiece(b, from, to, turn))
    ensures forall s :: OnBoard(s) && s != to ==> At(Simulate(b, from, to), s) == At(MovePiece(b, from, to, turn), s)
    ensures At(MovePiece(b, from, to, turn), to) == At(Simulate(b, from, to), to)
         || (IsPawn(b, from) && At(MovePiece(b, from, to, turn), to) == Occupied(Piece(Queen, turn)))
  {
  }

  /** The moved side's pawns: one that lands on row 0 or 7 is promoted, so
      none is left on its last rank. */
  lemma MovePieceKeepsPawns(b: Board, from: Square, to: Square, turn: Color)
    requires WellFormed(b) && OnBoard(from) && HasColor(b, from, turn) && IsTarget(b, from, to)
    ensures PawnsCanStep(MovePiece(b, from, to, turn), turn)
    ensures PawnsCanStep(MovePiece(b, from, to, turn), Opponent(turn))
  {
    var n := MovePiece(b, from, to, turn);
    WellFormedPawns(b, turn);
    WellFormedPawns(b, Opponent(turn));
    forall s | OnBoard(s) && At(n, s) == Occupied(Piece(Pawn, turn))
      ensures 0 <= s.row + Direction(turn) < 8
    {
      if s != to {
        assert At(b, s) == Occupied(Piece(Pawn, turn));
      }
    }
    forall s | OnBoard(s) && At(n, s) == Occupied(Piece(Pawn, Opponent(turn)))
      ensures 0 <= s.row + Direction(Opponent(turn)) < 8
    {
      assert At(b, s) == Occupied(Piece(Pawn, Opponent(turn)));
    }
  }

  /** A legal move never captures the other king when that king is not in
      check, and keeps exactly one king of each colour. */
  lemma MovePieceKeepsKings(b: Board, from: Square, to: Square, turn: Color)
    requires Consistent(b, turn) && OnBoard(from) && HasColor(b, from, turn)
    requires IsValidMove(b, from, to)
    ensures OneKing(MovePiece(b, from, to, turn), turn)
    ensures OneKing(MovePiece(b, from, to, turn), Opponent(turn))
  {
    var o := Opponent(turn);
    var n := MovePiece(b, from, to, turn);
    var t := Simulate(b, from, to);
    WellFormedPawns(b, turn);
    WellFormedPawns(b, o);
    SimulationKeepsMoverKing(b, from, to);
    PromotionKeepsColors(b, from, to, turn);
    // Kings of the mover: the same as on the simulated board.
    var k :| IsKingAt(t, k, turn) && forall s :: IsKingAt(t, s, turn) ==> s == k;
    assert IsKingAt(n, k, turn);
    forall s | IsKingAt(n, s, turn)
      ensures s == k
    {
      assert IsKingAt(t, s, turn);
    }
    // The other king stays where it was: the destination is not its square.
    var ko :| IsKingAt(b, ko, o) && forall s :: IsKingAt(b, s, o) ==> s == ko;
    if to == ko {
      WellFormedPawnCanStep(b, from);
      CandidateCaptureIsPseudoLegal(b, from, to);
      assert AttacksFrom(b, from, turn, ko);
      assert false;
    }
    assert IsKingAt(n, ko, o);
    forall s | IsKingAt(n, s, o)
      ensures s == ko
    {
      assert s != from && s != to;
      assert IsKingAt(b, s, o);
    }
  }

  /** Legal play keeps the engine's preconditions: after a legal move of the
      side to move the board is well formed and the side that moved is not
      in check. */
  lemma LegalMoveKeepsConsistency(b: Board, from: Square, to: Square, turn: Color)
    requires Consistent(b, turn) && OnBoard(from) && HasColor(b, from, turn)
    requires IsValidMove(b, from, to)
    ensures Consistent(MovePiece(b, from, to, turn), Opponent(turn))
  {
    var o := Opponent(turn);
    var n := MovePiece(b, from, to, turn);
    var t := Simulate(b, from, to);
    MovePieceKeepsKings(b, from, to, turn);
    MovePieceKeepsPawns(b, from, to, turn);
    if turn == White {
      assert WellFormed(n);
    } else {
      assert WellFormed(n);
    }
    SimulationKeepsMoverKing(b, from, to);
    PromotionKeepsColors(b, from, to, turn);
    assert !ExposesKing(b, from, to);
    forall s | OnBoard(s) && HasColor(t, s, o)
      ensures At(t, s) == At(n, s)
    {
    }
    forall k | IsKingAt(n, k, turn)
      ensures !Attacked(n, k, o)
    {
      assert IsKingAt(t, k, turn);
      AttackedSameColors(t, n, k, o);
    }
    assert Opponent(o) == turn;
  }

  /** `makeMove` as the click handler drives it: the caller has checked that
      the piece on `from` belongs to the side to move and that `to` is one of
      its legal destinations.  The move is applied and the status checked;
      the result is again consistent. */
  function MakeMove(g: Game, from: Square, to: Square): (r: Game)
    requires Consistent(g.board, g.turn) && OnBoard(from) && HasColor(g.board, from, g.turn)
    requires IsValidMove(g.board, from, to)
    ensures Consistent(r.board, r.turn)
    ensures r.board == MovePiece(g.board, from, to, g.turn) && r.turn == Opponent(g.turn)
    ensures r.history == g.history + [g.board] && r.mode == g.mode
    ensures r.over <==> g.over || !HasLegalMove(r.board, r.turn)
    ensures r.stats == Outcome(g.stats, g.mode, r.board, r.turn)
  {
    LegalMoveKeepsConsistency(g.board, from, to, g.turn);
    StatusCheckScores(ApplyMove(g, from, to));
    CheckGameStatus(ApplyMove(g, from, to))
  }

  // ---------------------------------------------------------------------
  // Undo.

  /** Restores the last snapshot and flips the turn: the inverse of the
      push a move makes. */
  function PopSnapshot(g: Game): (r: Game)
    requires |g.history| > 0
    ensures r.history + [r.board] == g.history
    ensures r.turn == Opponent(g.turn)
    ensures r.mode == g.mode && r.stats == g.stats && r.over == g.over
  {
    g.(board := g.history[|g.history| - 1], history := g.history[..|g.history| - 1], turn := Opponent(g.turn))
  }

  /** `undoMove`: with no history nothing happens.  Otherwise the last
      snapshot is restored, the turn flips back and the game is no longer
      over; in computer mode a second snapshot is popped too when one
      remains, so the human is back on move.  The counters are kept. */
  function Undo(g: Game): (r: Game)
    ensures |g.history| == 0 ==> r == g
    ensures |g.history| > 0 ==> !r.over
    ensures r.mode == g.mode && r.stats == g.stats
    ensures g.mode == Friend && |g.history| > 0 ==>
      && r.board == g.history[|g.history| - 1]
      && r.history == g.history[..|g.history| - 1]
      && r.turn == Opponent(g.turn)
    ensures g.mode == Computer && |g.history| == 1 ==>
      r.board == g.history[0] && r.history == [] && r.turn == Opponent(g.turn)
    ensures g.mode == Computer && |g.history| >= 2 ==>
      && r.board == g.history[|g.history| - 2]
      && r.history == g.history[..|g.history| - 2]
      && r.turn == g.turn
  {
    if |g.history| == 0 then g
    else
      var once := PopSnapshot(g).(over := false);
      if g.mode == Computer && |once.history| > 0 then PopSnapshot(once) else once
  }

  /** In friend mode a move followed by undo gives back the board, the side
      to move and the history, and the game is not over. */
  lemma UndoAfterMoveInFriendMode(g: Game, from: Square, to: Square)
    requires g.mode == Friend
    requires Consistent(g.board, g.turn) && OnBoard(from) && HasColor(g.board, from, g.turn)
    requires IsValidMove(g.board, from, to)
    ensures var u := Undo(MakeMove(g, from, to));
      u.board == g.board && u.turn == g.turn && u.history == g.history && !u.over
  {
    var h := MakeMove(g, from, to).history;
    assert h[..|h| - 1] == g.history;
  }

  /** `n` presses of the undo button. */
  function UndoTimes(g: Game, n: nat): (r: Game)
    decreases n
    ensures r.mode == g.mode
  {
    if n == 0 then g else UndoTimes(Undo(g), n - 1)
  }

  /** In friend mode, `n` undos restore the board saved `n` moves ago, keep
      the snapshots before it, and flip the side to move `n` times. */
  lemma {:induction false} FriendUndoTimes(g: Game, n: nat)
    requires g.mode == Friend && 1 <= n <= |g.history|
    decreases n
    ensures var u := UndoTimes(g, n);
      && u.board == g.history[|g.history| - n]
      && u.history == g.history[..|g.history| - n]
      && (u.turn == g.turn <==> n % 2 == 0)
      && !u.over
  {
    var once := Undo(g);
    assert UndoTimes(g, n) == UndoTimes(once, n - 1);
    if n > 1 {
      FriendUndoTimes(once, n - 1);
      UndoAgain(g.history, once.history, n);
      OpponentTwice(g.turn);
    }
  }

  /** One friend-mode undo dropped the last snapshot of `h`, leaving `rest`:
      counting `n - 1` snapshots back in `rest` is counting `n` back in `h`. */
  lemma UndoAgain<T>(h: seq<T>, rest: seq<T>, n: nat)
    requires 1 < n <= |h| && rest == h[..|h| - 1]
    ensures rest[|rest| - (n - 1)] == h[|h| - n]
    ensures rest[..|rest| - (n - 1)] == h[..|h| - n]
  {
  }

  // ---------------------------------------------------------------------
  // The computer opponent (Black).

  /** `makeComputerMove`: the pool of Black's legal moves is formed and the
      move at index `pick` is played (the program draws the index at
      random); with an empty pool only the status check runs. */
  function ComputerMove(g: Game, pick: nat): (r: Game)
    requires Consistent(g.board, g.turn) && g.turn == Black
    requires pick < |LegalMovePool(g.board, Black)| || |LegalMovePool(g.board, Black)| == 0
    ensures Consistent(r.board, r.turn)
    ensures HasLegalMove(g.board, Black) ==>
      && (exists m :: IsLegal(g.board, Black, m) && r.board == MovePiece(g.board, m.from, m.to, Black))
      && r.turn == White && r.history == g.history + [g.board]
    ensures !HasLegalMove(g.board, Black) ==>
      r.board == g.board && r.history == g.history && r.over && r.turn == g.turn
    ensures r.mode == g.mode
    ensures r.over <==> g.over || !HasLegalMove(r.board, r.turn)
    ensures r.stats == Outcome(g.stats, g.mode, r.board, r.turn)
  {
    var pool := LegalMovePool(g.board, Black);
    if |pool| > 0 then
      var m := pool[pick];
      assert m in pool;
      MakeMove(g, m.from, m.to)
    else
      StatusCheckScores(g);
      CheckGameStatus(g)
  }

  /** Every legal move of Black is some pick of the computer. */
  lemma EveryLegalMoveCanBePicked(g: Game, m: Move)
    requires Consistent(g.board, g.turn) && g.turn == Black
    requires IsLegal(g.board, Black, m)
    ensures exists pick ::
      0 <= pick < |LegalMovePool(g.board, Black)| && ComputerMove(g, pick).board == MovePiece(g.board, m.from, m.to, Black)
  {
    var pool := LegalMovePool(g.board, Black);
    assert m in pool;
    var pick :| 0 <= pick < |pool| && pool[pick] == m;
    assert ComputerMove(g, pick).board == MovePiece(g.board, m.from, m.to, Black);
  }

  /** In computer mode, one undo after the human's move and the computer's
      reply gives back the position before the human's move. */
  lemma UndoAfterReplyInComputerMode(g: Game, from: Square, to: Square, pick: nat)
    requires g.mode == Computer && g.turn == White
    requires Consistent(g.board, g.turn) && OnBoard(from) && HasColor(g.board, from, g.turn)
    requires IsValidMove(g.board, from, to)
    requires var h := MakeMove(g, from, to);
      pick < |LegalMovePool(h.board, Black)|
    ensures var u := Undo(ComputerMove(MakeMove(g, from, to), pick));
      u.board == g.board && u.turn == g.turn && u.history == g.history && !u.over
  {
    var h := MakeMove(g, from, to);
    var c := ComputerMove(h, pick);
    assert HasLegalMove(h.board, Black);
    UndoTwoSnapshots(c, g.history, g.board, h.board);
  }

  /** Undo in computer mode pops the two snapshots pushed last. */
  lemma UndoTwoSnapshots(c: Game, hist: seq<Board>, b1: Board, b2: Board)
    requires c.mode == Computer && c.history == hist + [b1] + [b2]
    ensures var u := Undo(c);
      u.board == b1 && u.history == hist && u.turn == c.turn && !u.over
  {
    var n := |c.history|;
    assert c.history[n - 2] == b1;
    assert c.history[..n - 2] == hist;
  }

  // ---------------------------------------------------------------------
  // A new game.

  /** `initializeGame`: the standard start with White to move, an empty
      history and the game not over; mode and counters are kept. */
  function NewGame(mode: Mode, stats: Stats): (r: Game)
    ensures Consistent(r.board, r.turn) && GameInv(r)
    ensures r.turn == White && r.history == [] && !r.over
    ensures Origin(r) == (InitialBoard(), White)
    ensures r.mode == mode && r.stats == stats
  {
    InitialPositionConsistent();
    Game(InitialBoard(), White, [], mode, false, stats)
  }

  lemma InitialPositionConsistent()
    ensures Consistent(InitialBoard(), White)
  {
    var b := InitialBoard();
    InitialBoardLayout();
    assert PawnsCanStep(b, White);
    assert PawnsCanStep(b, Black);
    assert WellFormed(b);
    forall k | IsKingAt(b, k, Black)
      ensures !Attacked(b, k, White)
    {
      assert k == Square(0, 4);
      forall s | OnBoard(s) && HasColor(b, s, White)
        ensures k !in PseudoLegalMoves(b, s)
      {
        InitialWhiteReachesNoBackRank(s, k);
      }
    }
  }

  /** In the start position no White piece can reach row 0. */
  lemma InitialWhiteReachesNoBackRank(s: Square, t: Square)
    requires OnBoard(s) && HasColor(InitialBoard(), s, White) && t.row == 0
    ensures t !in PseudoLegalMoves(InitialBoard(), s)
  {
    var b := InitialBoard();
    InitialCellAt(s);
    match At(b, s).piece.kind
    case Pawn => PawnPseudoLegalExactly(b, s, t);
    case Knight => JumpingMovesExactly(b, s, t);
    case King => JumpingMovesExactly(b, s, t);
    case _ => InitialSliderBlocked(s, t);
  }

  lemma InitialCellAt(s: Square)
    requires OnBoard(s)
    ensures At(InitialBoard(), s) == InitialCell(s.row, s.col)
  {
  }

  /** White's bishops, rooks and queen start behind their own pawns. */
  lemma InitialSliderBlocked(s: Square, t: Square)
    requires OnBoard(s) && HasColor(InitialBoard(), s, White) && t.row == 0
    requires At(InitialBoard(), s).piece.kind in {Bishop, Rook, Queen}
    ensures t !in PseudoLegalMoves(InitialBoard(), s)
  {
    var b := InitialBoard();
    InitialCellAt(s);
    var p := At(b, s).piece;
    assert s.row == 7;
    forall c | 0 <= c < 8
      ensures !IsEmpty(b, Square(6, c))
    {
      InitialCellAt(Square(6, c));
    }
    SlidingMovesExactly(b, s, t);
    DirectionsAreUnit();
    forall d | d in SlideDirections(p.kind)
      ensures !ReachesAlong(b, White, s, d, 1, t)
    {
      WallBlocksRay(b, s, d, t);
    }
  }

  /** A ray from row 7 cannot reach row 0 past a fully occupied row 6. */
  lemma WallBlocksRay(b: Board, s: Square, d: Offset, t: Square)
    requires OnBoard(s) && s.row == 7 && t.row == 0 && IsUnit(d)
    requires forall c :: 0 <= c < 8 ==> !IsEmpty(b, Square(6, c))
    ensures !ReachesAlong(b, White, s, d, 1, t)
  {
    forall k | 1 <= k < 8 && t == RayPoint(s, d, k) && OnBoard(t)
      ensures !ClearBetween(b, s, d, 1, k)
    {
      assert d.0 * k == -7;
      assert d.0 == -1 && k == 7;
      var p := RayPoint(s, d, 1);
      assert 0 <= p.col < 8;
      assert !IsEmpty(b, Square(6, p.col));
    }
  }


  // ---------------------------------------------------------------------
  // What moves, replies and undos keep.

  /** The side to move in snapshot `i` of `n` when `turn` is to move now: the
      last snapshot was saved with the other side to move, and the sides
      alternate back from there. */
  function TurnAt(turn: Color, n: int, i: int): Color {
    if (n - i) % 2 == 1 then Opponent(turn) else turn
  }

  /** The position and every saved one are consistent with their side to
      move. */
  ghost predicate PositionsConsistent(b: Board, turn: Color, history: seq<Board>) {
    && Consistent(b, turn)
    && forall i :: 0 <= i < |history| ==> Consistent(history[i], TurnAt(turn, |history|, i))
  }

  /** The game's invariant: the engine's preconditions hold on the current
      position and on whatever an undo restores. */
  ghost predicate GameInv(g: Game) {
    PositionsConsistent(g.board, g.turn, g.history)
  }

  /** The position the history starts from: the oldest snapshot with its side
      to move, or the current position when nothing is saved. */
  function Origin(g: Game): (Board, Color) {
    if |g.history| == 0 then (g.board, g.turn) else (g.history[0], TurnAt(g.turn, |g.history|, 0))
  }

  lemma OpponentTwice(c: Color)
    ensures Opponent(Opponent(c)) == c
  {
  }

  /** Saving the current position and passing the move to a consistent
      position keeps the invariant and the origin. */
  lemma PushKeepsInvariant(g: Game, r: Game)
    requires GameInv(g) && Consistent(r.board, r.turn)
    requires r.history == g.history + [g.board] && r.turn == Opponent(g.turn)
    ensures GameInv(r) && Origin(r) == Origin(g)
  {
    var n := |g.history|;
    OpponentTwice(g.turn);
    forall i | 0 <= i < |r.history|
      ensures Consistent(r.history[i], TurnAt(r.turn, n + 1, i))
    {
      if i < n {
        assert r.history[i] == g.history[i];
        assert TurnAt(r.turn, n + 1, i) == TurnAt(g.turn, n, i);
      } else {
        assert r.history[i] == g.board;
        assert TurnAt(r.turn, n + 1, i) == g.turn;
      }
    }
    assert r.history[0] == if n == 0 then g.board else g.history[0];
  }

  /** A move keeps the invariant and the origin. */
  lemma MakeMoveKeepsInvariant(g: Game, from: Square, to: Square)
    requires GameInv(g) && OnBoard(from) && HasColor(g.board, from, g.turn)
    requires IsValidMove(g.board, from, to)
    ensures GameInv(MakeMove(g, from, to))
    ensures Origin(MakeMove(g, from, to)) == Origin(g)
  {
    PushKeepsInvariant(g, MakeMove(g, from, to));
  }

  /** The computer's reply keeps the invariant and the origin. */
  lemma ComputerMoveKeepsInvariant(g: Game, pick: nat)
    requires GameInv(g) && g.turn == Black
    requires pick < |LegalMovePool(g.board, Black)| || |LegalMovePool(g.board, Black)| == 0
    ensures GameInv(ComputerMove(g, pick))
    ensures Origin(ComputerMove(g, pick)) == Origin(g)
  {
    var pool := LegalMovePool(g.board, Black);
    if |pool| > 0 {
      var m := pool[pick];
      assert m in pool;
      MakeMoveKeepsInvariant(g, m.from, m.to);
    }
  }

  /** Restoring the last snapshot keeps the invariant and the origin. */
  lemma PopKeepsInvariant(g: Game)
    requires GameInv(g) && |g.history| > 0
    ensures GameInv(PopSnapshot(g))
    ensures Origin(PopSnapshot(g)) == Origin(g)
  {
    var p := PopSnapshot(g);
    var n := |g.history|;
    OpponentTwice(g.turn);
    assert TurnAt(g.turn, n, n - 1) == p.turn;
    forall i | 0 <= i < |p.history|
      ensures Consistent(p.history[i], TurnAt(p.turn, n - 1, i))
    {
      assert p.history[i] == g.history[i];
      assert TurnAt(p.turn, n - 1, i) == TurnAt(g.turn, n, i);
    }
    if n > 1 {
      assert p.history[0] == g.history[0];
    }
  }

  /** Undo keeps the invariant and the origin, so every position reached by
      moves, replies and undos from a new game meets the engine's
      preconditions. */
  lemma UndoKeepsInvariant(g: Game)
    requires GameInv(g)
    ensures GameInv(Undo(g))
    ensures Origin(Undo(g)) == Origin(g)
  {
    if |g.history| > 0 {
      var once := PopSnapshot(g).(over := false);
      FirstPopKeepsInvariant(g);
      if g.mode == Computer && |once.history| > 0 {
        PopKeepsInvariant(once);
      }
    }
  }

  /** The first pop of an undo, which also clears the over flag. */
  lemma FirstPopKeepsInvariant(g: Game)
    requires GameInv(g) && |g.history| > 0
    ensures GameInv(PopSnapshot(g).(over := false))
    ensures Origin(PopSnapshot(g).(over := false)) == Origin(g)
  {
    PopKeepsInvariant(g);
    var p := PopSnapshot(g);
    var once := p.(over := false);
    assert once.board == p.board && once.turn == p.turn && once.history == p.history;
  }



  /** In friend mode, undoing every saved move returns to the origin.  From
      a new game, and after any moves and undos, that is the start position
      with White to move. */
  lemma UndoAllRestoresOrigin(g: Game)
    requires g.mode == Friend
    ensures var u := UndoTimes(g, |g.history|);
      (u.board, u.turn) == Origin(g) && u.history == []
  {
    var n := |g.history|;
    if n > 0 {
      FriendUndoTimes(g, n);
      var u := UndoTimes(g, n);
      if n % 2 == 1 {
        assert u.turn != g.turn;
        assert u.turn == Opponent(g.turn);
      }
    }
  }
}
