# Chess rules engine — a Dafny model

This project models the rules core of a browser chess game (`script.js`):

- the start position;
- the per-piece move generator, which the attack scan uses;
- the generator copy inside `getValidMoves`, which adds the pawn two-step;
- the attack scan and the king search;
- the legality filter, which simulates each candidate move;
- `makeMove` with its auto-promotion to a queen;
- `undoMove` in friend and computer mode;
- the end-of-game check `checkGameStatus` and its win/loss/draw counters;
- the move pool from which the computer opponent picks its reply.

The program keeps its state in globals. Here the state is a `Game` value, and every operation returns the next value. The project proves these properties:

- **Generator destinations.** Every generated destination is on the board and is not the origin. It is empty or holds an opposing piece.
- **Sliders.** A slider reaches exactly the unobstructed squares of its rays. A queen's list is a bishop's list followed by a rook's list.
- **Pawns.** A pawn's moves have exactly the source's shapes. The two generators differ only by the pawn two-step.
- **Attack scan.** It is equivalent to "some piece of that colour has the square among its pseudo-legal moves".
- **Legality filter.** It keeps a candidate exactly when the mover's king is not attacked afterwards.
- **Invariant.** A legal move keeps the board well formed and leaves the mover's king safe. This holds even though the filter's simulation skips promotion.
- **End of game.** The status check classifies the position correctly and updates the counters as the source does.
- **Undo.** Undo round-trips in friend mode, for one move and for `n` moves. In computer mode, one undo takes back a human move together with the reply.
- **Computer move.** Every legal move of the computer is some pick from its pool.

Files, in dependency order:

- `pieces.dfy`: colours, kinds, cells, squares, the board, and the letter codes. Also the start position.
- `movegen.dfy`: the move generators and the lemmas that characterise them.
- `attacks.dfy`: the attack scan and the king search.
- `legality.dfy`: the legality filter.
- `frames.dfy`: generation depends only on which colour stands where.
- `game.dfy`: the game state machine, the status check, undo, and the computer's pool.

The source would crash on two kinds of board:

- `getValidMoves` dereferences the mover's king position without checking it (`script.js:308-309`), and so does `checkGameStatus` when the side to move has no legal move (`script.js:452-453`). A board with no king of that colour raises an error there.
- The pawn rules read the row ahead of a pawn without a bounds check (`script.js:251-255`, `script.js:356-360`). A pawn on its last rank raises an error there.

The model excludes both with one precondition, `Legality.WellFormed`: exactly one king per colour, and no pawn on its last rank. "Exactly one king" is stronger than what the source needs to avoid a crash. A second king of one colour raises nothing, because `findKingPosition` returns the first it meets (`script.js:414-415`). It is chosen because reachable play keeps it. `Game.Consistent` adds one more condition: the side that just moved is not in check.

`Game.GameInv` asks that the current position and every saved snapshot be `Consistent` with their side to move. These members keep it:

- `Game.NewGame` establishes it.
- `Game.MakeMoveKeepsInvariant` shows a move keeps it.
- `Game.ComputerMoveKeepsInvariant` shows the computer's reply keeps it.
- `Game.UndoKeepsInvariant` shows undo keeps it.

So every position reached from a new game by moves, replies and undos meets the preconditions of the move, status and reply operations. The same lemmas show that the game's origin stays the same. The origin is the position its history starts from, and for a new game it is the start position with White to move. `Game.UndoAllRestoresOrigin` proves that in friend mode, undoing every saved move returns there.

Where the code departs from the rules of chess or needs a note, the model follows the code:

- **Pawn two-step.** Chess allows a pawn's two-square first move. In the code, only the move generator inside `getValidMoves` produces it (`script.js:241-256`). The generator used by the attack scan, `getPseudoLegalMoves`, does not (`script.js:351-355`).
- **Pawn forward steps count as attacks.** The attack scan reuses `getPseudoLegalMoves`, so a pawn "attacks" the empty square straight ahead of it (`script.js:353-354`). `Attacks.PawnAttacksSquareAhead` states this. The quirk never changes the legality filter's result. The filter always asks about the mover's king's square on the trial board, and that square is occupied by the king. A pawn attacks an occupied square only diagonally: `Attacks.PawnAttacksOccupiedDiagonally` proves this, and `Legality.FilterSeesOnlyPawnCaptures` applies it to the filter.
- **Promotion colour.** The queen takes the colour of `turn`, not the colour read from the pawn (`script.js:190-191`). `Game.MakeMove` requires the moved piece to belong to `turn`, so the two agree. See "Left out" for when the source breaks this.
- **Counters.** `checkGameStatus` itself updates the win, loss and draw counters, and only in computer mode (`script.js:455-472`). The model does the same.
- **Undo in computer mode after a game-ending move.** A human move that ends the game arms no reply (`script.js:130`). If the history then holds more than one board, undo pops two of them (`script.js:209-211`). That leaves Black to move with no reply pending, and the click handler lets the human move Black's pieces (`script.js:120`). `Game.Undo` follows this.
- **Moves for either side.** `getValidMoves` does not look at whose turn it is (`script.js:220-224`). Pieces of the side not to move therefore also have legal destinations.

## Model

| member | source | states |
|---|---|---|
| Pieces.SymbolRoundTrip | script.js:39-48 | The one- or zero-letter board code and a cell determine each other: decoding a cell's code gives the cell back, and a code decoding to a cell is that cell's code |
| Pieces.SymbolCaseGivesColor | script.js:224 | A piece's letter is unchanged by upper-casing exactly when the piece is White, which is how the source reads a piece's colour |
| Pieces.InitialBoard | script.js:39-48 | Every square of the start position holds the cell that the source's letter table for that square decodes to |
| Pieces.InitialBoardLayout | script.js:39-48 | The start position has the White king only on (7,4) and the Black king only on (0,4), so one king per side; rows 2-5 are empty; row 6 holds White pawns; row 1 holds Black pawns |
| MoveGen.Jumps | script.js:363-372 | A knight or king destination list holds exactly the offset squares that are on the board and not held by the mover's colour |
| MoveGen.Ray | script.js:373-383 | Each square a ray yields is on the board, not held by the mover's colour, and not the origin |
| MoveGen.CanMoveTo | script.js:226-234 | This member is the definition of the program's `canMoveTo`: a square passes exactly when it is on the board and not held by the mover's colour. The attack-scan generator's copy at script.js:342-350 is the same test |
| MoveGen.Slides | script.js:373-396 | Soundness only: every square listed for a set of directions is a valid destination (on the board, not the mover's colour, not the origin). `MoveGen.SlidesExactly` states completeness |
| MoveGen.SlidesExactly | script.js:373-396 | The squares listed for a set of directions are exactly those that some direction reaches unobstructed |
| MoveGen.PawnMoves | script.js:241-256 | Soundness only: every listed pawn destination is on the board, not the mover's colour and not the origin. The same rules are at script.js:351-361. `MoveGen.PawnPseudoLegalExactly` and `MoveGen.CandidatesAddOnlyDoubleStep` state completeness, for the generators without and with the two-step |
| MoveGen.Generate | script.js:337-408 | The per-kind dispatch shared by both generators: an empty origin has no moves, and an occupied origin's destinations are valid squares for its colour other than the origin |
| MoveGen.PseudoLegalMoves | script.js:337-408 | An empty origin has no moves; every destination is on the board, differs from the origin, and is empty or holds an opposing piece |
| MoveGen.CandidateMoves | script.js:220-301 | The filter's inline generator gives nothing for an empty origin; its destinations are on the board, not the origin, and empty or opposing |
| MoveGen.RayExactly | script.js:373-383 | A ray contains a square exactly when the square is at some step k of the direction, passes the move-to test, and every earlier step is empty |
| MoveGen.SlidingMovesExactly | script.js:373-396 | A bishop, rook or queen reaches a square exactly when some direction of its kind reaches it unobstructed |
| MoveGen.QueenIsBishopThenRook | script.js:373-396 | A queen's destinations are, in order, the bishop's destinations from its square followed by the rook's |
| MoveGen.JumpingMovesExactly | script.js:397-406 | Knights and kings reach exactly their offsets that are on the board and not held by their own colour |
| MoveGen.PawnPseudoLegalExactly | script.js:351-361 | In the attack-scan generator a pawn moves one row ahead onto an empty square or diagonally onto an opposing piece, and never two rows |
| MoveGen.CandidatesAddOnlyDoubleStep | script.js:241-256 | The filter's generator equals the attack-scan generator for non-pawns; for a pawn it adds exactly the home-row two-step over two empty squares |
| MoveGen.CandidateCaptureIsPseudoLegal | script.js:241-256 | A candidate move onto an occupied square is also a pseudo-legal move, so the two generators agree on captures |
| Attacks.AttackScan | script.js:318-335 | The scan from index k finds an attacker exactly when some piece of the attacking colour at row-major index at least k has the target among its pseudo-legal moves |
| Attacks.IsSquareUnderAttack | script.js:318-335 | A square is reported attacked exactly when some piece of the attacking colour has it among its pseudo-legal moves |
| Attacks.KingScan | script.js:410-420 | The scan from index k returns the first king of the colour at index at least k, or none when there is none from k on |
| Attacks.FindKingPosition | script.js:410-420 | Returns a king of the requested colour with the least row-major index, and returns nothing exactly when that colour has no king |
| Attacks.FindsTheOnlyKing | script.js:410-420 | With exactly one king of the colour, the search returns that king's square |
| Attacks.PawnAttacksSquareAhead | script.js:351-354 | A pawn counts as attacking the empty square straight ahead of it |
| Attacks.PawnAttacksOccupiedDiagonally | script.js:355-360 | A pawn attacks an occupied square only one row ahead and one column aside |
| Legality.Simulate | script.js:303-308 | The filter's trial board has the origin emptied, the moved piece on the destination, and every other square unchanged |
| Legality.SimulationMovesKing | script.js:303-309 | On the trial board the mover's colour still has exactly one king |
| Legality.SimulationKeepsPawns | script.js:303-309 | The trial board adds no opposing pawn, so the opposing pawns can still all step |
| Legality.KingSafeAfter | script.js:308-309 | The source's per-candidate test (find the mover's king on the trial board, ask whether the opponent attacks it) passes exactly when the move does not expose the mover's king |
| Legality.FilterSeesOnlyPawnCaptures | script.js:302-310 | On the filter's trial board an opposing pawn attacks the mover's king square only one row ahead and one column aside, so the pawn forward-step quirk never decides legality |
| Legality.KeepSafe | script.js:302-310 | The filter keeps exactly the candidates that do not leave the mover's king attacked |
| Legality.ValidMoves | script.js:220-311 | A destination is legal exactly when the origin is occupied, the destination is a candidate, and the move does not leave the mover's king attacked; an empty origin has none |
| Legality.IsValidMove | script.js:313-316 | A move is valid exactly when its destination is among the legal destinations; a valid move starts on a piece and goes to another on-board square |
| Frames.RaySameColors | script.js:373-383 | A ray depends only on which colour stands on each square, not on piece kinds |
| Frames.PseudoLegalSameColors | script.js:337-408 | A piece has the same pseudo-legal moves on two boards that agree on occupancy and colours |
| Frames.AttackedSameColors | script.js:318-335 | Attacks by a colour agree on two boards that agree on colours and hold the same pieces of that colour |
| Game.MovePiece | script.js:185-192 | The destination receives the moved piece, or a queen of the colour to move when a pawn lands on row 0 or 7; the origin is emptied; all other squares are unchanged |
| Game.ApplyMove | script.js:185-193 | The board becomes the moved board, the pre-move board is pushed onto the history, the turn flips, and mode, counters and the over flag are kept |
| Game.Pairs | script.js:145-162 | The pairs for one origin are exactly that origin with each of its destinations |
| Game.PoolFrom | script.js:145-162 | The pool from index k holds exactly the legal moves whose origin has row-major index at least k |
| Game.LegalMovePool | script.js:145-162 | The pool holds exactly the legal moves of the colour, and is empty exactly when the colour has no legal move |
| Game.Evaluate | script.js:433-455 | Play goes on exactly when the side to move has a legal move; otherwise it is checkmate of that side when its king is attacked and stalemate when not |
| Game.CheckGameStatus | script.js:433-478 | With a legal move left nothing changes; otherwise the game is over, and in computer mode a mated White adds a loss, a mated Black a win, a stalemate a draw; friend mode keeps the counters |
| Game.StatusCheckScores | script.js:450-472 | The counters after the status check are those of `Game.Outcome`: unchanged while a move is left or in friend mode; otherwise one more draw for stalemate, one more loss when White is mated, one more win when Black is mated |
| Game.StatusCheckScoresOver | script.js:450-472 | The same counter update, for a computer-mode game whose side to move has no legal move |
| Game.PromotionKeepsColors | script.js:189-191 | Promotion changes only the kind on the destination, so the moved board and the filter's trial board agree on colours |
| Game.MovePieceKeepsPawns | script.js:185-191 | A move keeps every pawn of either colour able to step, because a pawn reaching its last rank becomes a queen |
| Game.MovePieceKeepsKings | script.js:185-191 | A valid move on a consistent board keeps exactly one king per colour: it cannot capture the opposing king, which is not attacked |
| Game.LegalMoveKeepsConsistency | script.js:185-197 | A legal move of the side to move gives a well-formed board on which the mover's king is not attacked, with the other side to move |
| Game.MakeMove | script.js:185-197 | A valid move keeps the game consistent, applies the move with promotion, pushes the old board, flips the turn, ends the game exactly when it was over or the new side to move has no legal move, and updates the counters as `Game.Outcome` says for the new position |
| Game.PopSnapshot | script.js:200-202 | Popping is the inverse of the push a move makes: the remaining history followed by the restored board is the old history; the turn flips; mode, counters and the over flag are kept. The computer-mode second pop at script.js:210-211 is the same step |
| Game.Undo | script.js:199-218 | With no history nothing changes; otherwise the last snapshot is restored with the turn flipped and the game not over; in computer mode a second snapshot is restored when one remains |
| Game.UndoAfterMoveInFriendMode | script.js:185-211 | In friend mode, undo after a move restores the board, the side to move and the history |
| Game.FriendUndoTimes | script.js:199-211 | In friend mode, n undos restore the board saved n moves ago and the snapshots before it, flip the side to move n times, and leave the game not over |
| Game.ComputerMove | script.js:145-169 | With a legal move the computer plays one of its legal moves, pushing the old board and giving White the move; with none, the board, history and side to move are kept and the game is over; the game is over exactly when it was over or the side to move afterwards has no legal move, and the counters follow `Game.Outcome` |
| Game.EveryLegalMoveCanBePicked | script.js:145-169 | Every legal move of Black is the computer's move for some index into its pool |
| Game.UndoAfterReplyInComputerMode | script.js:199-218 | In computer mode, one undo after the human's move and the computer's reply restores the position before the human's move |
| Game.UndoTwoSnapshots | script.js:212-216 | Undo in computer mode with two snapshots pushed last restores the older one and keeps the side to move |
| Game.NewGame | script.js:50-55 | A new game starts from a consistent position with White to move, no history and the game not over, keeping the given mode and counters; it meets the game invariant and its origin is the start position with White to move |
| Game.InitialPositionConsistent | script.js:39-48 | The start position is well formed and the Black king is not attacked |
| Game.InitialWhiteReachesNoBackRank | script.js:39-48 | In the start position no White piece has a pseudo-legal move onto row 0 |
| Game.InitialSliderBlocked | script.js:373-396 | In the start position White's bishops, rooks and queen are blocked by their own pawns |
| Game.WallBlocksRay | script.js:373-383 | A ray from row 7 cannot pass a fully occupied row 6 to reach row 0 |
| Game.PushKeepsInvariant | script.js:185-196 | Saving the current position and moving on to a consistent position with the other side to move keeps every snapshot consistent with its side to move, and keeps the origin |
| Game.MakeMoveKeepsInvariant | script.js:185-197 | A valid move keeps the current position and every snapshot consistent with their side to move, and keeps the origin |
| Game.ComputerMoveKeepsInvariant | script.js:145-169 | The computer's reply, or the status check when it has no move, keeps the game invariant and the origin |
| Game.PopKeepsInvariant | script.js:200-202 | Restoring the last snapshot with the turn flipped keeps the game invariant and the origin |
| Game.FirstPopKeepsInvariant | script.js:199-204 | The first pop of an undo, with the game no longer over, keeps the game invariant and the origin |
| Game.UndoKeepsInvariant | script.js:199-218 | Undo, in either mode, keeps the game invariant and the origin |
| Game.UndoAllRestoresOrigin | script.js:199-211 | In friend mode, undoing every saved move gives back the origin position with its side to move and an empty history |

## Left out

- Rendering, the DOM and the click handler are not modelled, and neither are the menus, the modal dialog or the king-in-check highlight (`checkKingStatus`).
- Game.MakeMove: requires the moved piece to belong to the side to move. It assumes no human input while the computer's reply is pending. The click handler checks the colour only when a piece is selected (`script.js:120`, `script.js:140`), and not again when the move is made (`script.js:127-128`). `makeComputerMove` never clears the selection (`script.js:145-169`), so a piece selected during the 500 ms delay can be moved after the reply. It can then be a Black piece moved with White to move, and a Black pawn reaching row 7 becomes a White queen (`script.js:189-191`). The model does not cover this.
- Game.ComputerMove: requires Black to move. It assumes no human input while the reply is pending. The timer is armed only with Black to move (`script.js:130-132`). A move or undo during the delay still lets it fire, possibly with White to move. `makeComputerMove` then plays a Black piece regardless of `turn` (`script.js:150`). The model does not cover this.
- The 500 ms delay before the computer replies is left out. The computer's move is a separate operation, `Game.ComputerMove`.
- `Math.random` is replaced by an index parameter `pick` into the pool. Uniformity of the choice is not modelled. `Game.EveryLegalMoveCanBePicked` shows that every legal move is some pick.
- Persistence of the counters in `localStorage` is left out. `loadStats`, `saveStats` and `resetStats` are I/O; only the arithmetic on the counters is modelled.
- The JSON deep copies become value semantics.
- The Unicode piece glyphs are display only and are not modelled.
- The source's behaviour on boards outside `Legality.WellFormed` is not modelled. A board with a second king of one colour would run without error in the source; the model excludes it because reachable play never produces one (`Game.GameInv`).
- `checkGameStatus` collects only destination squares. The model uses the (from, to) pool, which is empty exactly when the list of destinations is.
- The number of legal moves in the start position (20 for White) is not proved.
- Castling, en passant, under-promotion and the draw rules are absent from the source as well.
