# Hasami Shogi rules engine in Dafny

This project models the rules engine of a Hasami Shogi game: the class
`HasamiShogiGame` of `HasamiShogiGame.py`. Two players, Black and Red, each
start with 9 pieces on a 9x9 board. Red fills row `a` and Black fills row `i`.
Black moves first. A move goes along a row or a column without jumping. It
can capture pieces in two ways:

- a custodian (linear) capture, where a run of enemy pieces is closed by a
  piece of the mover's;
- a corner capture, driven by a fixed table of the eight squares next to a
  corner.

A colour that has lost 8 of its 9 pieces loses the game.

The project has three modules:

- `Board` (`board.dfy`) holds the colours, the content of a square, and the
  playing grid as `seq<seq<Cell>>` read with the source's 1-based indices.
  It also holds the table from algebraic names (`"a1"` .. `"i9"`) to
  squares, the static corner-capture table, and the count of pieces of a
  colour on the board.
- `Rules` (`rules.dfy`) states every step of `make_move` as a pure function
  of a snapshot of the object's fields:
  - the check of `validate_move` and the move it performs;
  - the corner check and the four scans of `check_captures`;
  - the win test and the change of turn.

  Lemmas state what each step promises. Among them is the invariant that
  every piece of a colour is either on the board or counted as captured.
- `Game` (`game.dfy`) holds the class `HasamiShogiGame`. It has the
  source's fields, and its methods change them in place with the source's
  `while` and `for` loops. Each method is proved to leave the fields exactly
  as the matching `Rules` function says, so the lemmas of `Rules` hold of the
  object.

Where the class comment and the code disagree, the model follows the code:

- **Corner captures.** The comment describes them as taking an *enemy*
  piece. The code takes whatever piece stands in the corner, including the
  mover's own, and increments that colour's counter. The test at line 215
  compares an occupant word with a single letter, so it never fails
  (`Game.CornerTestAlwaysPasses`, `Rules.CornerCaptureTakesOwnPiece`).
- **The win test.** The comment says "one or no pieces left". The code
  compares the counters with 8 and with 9. With the counters kept within
  0..9 (`Rules.CountersBounded`), both tests give the same answer.

## Model

| member | source | states |
|---|---|---|
| Board.SquareIndex | HasamiShogiGame.py:41-54 | a name resolves exactly when it is a row letter a..i followed by a column digit 1..9; the square it resolves to is on the board and is named by it |
| Board.SquareIndexOfName | HasamiShogiGame.py:41-54 | every playing square is in the table under its own name, so the table is onto the 81 squares |
| Board.SquareIndexInjective | HasamiShogiGame.py:41-54 | two names that resolve to the same square are the same name, so the table is one-to-one |
| Board.CornerEntry | HasamiShogiGame.py:55-56 | each corner-table key and both squares it lists are real squares; the second square is a corner, orthogonally next to the key and to the partner |
| Board.CornerPartner | HasamiShogiGame.py:55-56 | the partner of a key is another key, and its entry points back at the key with the same corner |
| Board.Put | HasamiShogiGame.py:326 | a write to one square sets that square and leaves every other square as it was |
| Board.PutCount | HasamiShogiGame.py:158-159 | one write changes the number of pieces of a colour by exactly what it removes and what it adds |
| Rules.InitialBoard | HasamiShogiGame.py:31-40 | the starting 9x9 playing grid; its layout is stated by Rules.InitialLayout and its piece counts by Rules.InitialCounts |
| Rules.Initial | HasamiShogiGame.py:27-40 | the fields set by the constructor; Rules.InitialLayout and Rules.InitialValid state what they hold |
| Rules.InitialLayout | HasamiShogiGame.py:27-40 | the initial board has row a all red, row i all black and rows b..h empty; Black is to move, the game is unfinished, and no piece is captured |
| Rules.InitialCounts | HasamiShogiGame.py:31-40 | each colour starts with exactly 9 pieces on the board |
| Rules.InitialValid | HasamiShogiGame.py:27-40 | the initial game satisfies the invariant: pieces on the board plus pieces captured is 9 per colour, and the state is the verdict of the counters |
| Rules.ValidMove | HasamiShogiGame.py:135-201 | the answer of validate_move; Rules.ValidMoveRejects states each rejection and Rules.ValidMoveLandsOnEmpty what an accepted move starts from and lands on |
| Rules.Move | HasamiShogiGame.py:158-200 | the two writes that end an accepted move; Rules.MoveEffect states the board and fields afterwards |
| Rules.ValidMoveRejects | HasamiShogiGame.py:135-201 | a move is rejected if the source square does not hold the mover's piece, if the game is won, if the move is diagonal, if it is a null move, or if any square after the source up to and including the destination is occupied |
| Rules.ValidMoveLandsOnEmpty | HasamiShogiGame.py:148-201 | an accepted move starts from the mover's piece in an unfinished game and lands on an empty square (the destination is part of the path) |
| Rules.MoveEffect | HasamiShogiGame.py:158-201 | an accepted move puts the mover's piece on the destination and empties the source; every other square, every other field and each colour's piece count stay as they were |
| Rules.RunAt | HasamiShogiGame.py:232-237 | the count of a scan's while loop; Rules.RunAtExact, Rules.RunAtFoe and Rules.RunAtEnd state that it is exactly the run of opponent pieces, and Rules.RunAtFrame what it reads |
| Rules.RunAtExact | HasamiShogiGame.py:234-237 | when n consecutive squares from the destination hold opponent pieces and the next square is off the board, empty or the mover's, the run counted by a scan's while loop has length exactly n |
| Rules.RunAtEnd | HasamiShogiGame.py:234-237 | the while loop stops on a square that is off the board, empty or the mover's, never on an opponent piece, so the counted run is as long as it can be |
| Rules.RunAtFrame | HasamiShogiGame.py:232-237 | the count of a scan depends only on the squares of its own ray: two boards that agree there give the same count |
| Rules.FlankedByBoard | HasamiShogiGame.py:232-238 | a run is flanked exactly when it is not empty and the square just past it is on the board and occupied |
| Rules.RunAtFoe | HasamiShogiGame.py:234-237 | every square of the counted run is on the board and holds an opponent piece |
| Rules.ClearRun | HasamiShogiGame.py:243-245 | the board during and after a scan's for loop; Rules.ClearRunCells, Rules.ClearRunCount and Rules.ClearRunKeeps state what it empties and counts |
| Rules.ClearRunCells | HasamiShogiGame.py:243-245 | the for loop of a scan empties exactly the squares of the run and no other square |
| Rules.ClearRunCount | HasamiShogiGame.py:243-245 | emptying a run of k opponent pieces removes exactly k of them from the board |
| Rules.ClearRunKeeps | HasamiShogiGame.py:243-245 | emptying a run of opponent pieces leaves the number of the mover's pieces unchanged |
| Rules.LineCapture | HasamiShogiGame.py:229-245 | one scan; its effect is stated by Rules.LineCaptureCells, Rules.LineCaptureRemovesRun, Rules.LineCaptureIdle, Rules.LineCaptureSparesOwn, Rules.LineCaptureConserves and Rules.LineCaptureKeepsRay |
| Rules.LineCaptureRemovesRun | HasamiShogiGame.py:229-245 | when a run of k >= 1 opponent pieces is closed by the mover's piece, the k squares are emptied and the opponent's counter rises by exactly k; no other square or field changes |
| Rules.LineCaptureIdle | HasamiShogiGame.py:229-245 | a scan changes nothing exactly when its run is empty, or the square just past the run is off the board or empty; otherwise it changes the state |
| Rules.LineCaptureCells | HasamiShogiGame.py:229-245 | one scan, flanked or not: the squares of a flanked run are emptied and every other square is kept; the opponent's counter rises by the run's length when flanked and by nothing otherwise; nothing else changes |
| Rules.LineCaptureKeepsRay | HasamiShogiGame.py:229-299 | a scan in one direction leaves the run and the flank test of every other direction as they were, so the four scans do not interfere |
| Rules.LineCaptureSparesOwn | HasamiShogiGame.py:229-299 | a scan never changes a square holding the mover's piece or an empty square |
| Rules.LineCaptureConserves | HasamiShogiGame.py:229-245 | a scan keeps, for each colour, pieces on the board plus captured pieces equal to 9, never lowers a counter, and leaves the game state and the active player alone |
| Rules.CornerCapture | HasamiShogiGame.py:210-221 | the corner check; Rules.CornerCaptureEffect and Rules.CornerCaptureTakesOwnPiece state its effect |
| Rules.CornerCaptureEffect | HasamiShogiGame.py:210-221 | when the destination is a key, its partner holds the mover's piece and the corner is occupied, the corner is emptied and the counter of that piece's colour rises by one; otherwise nothing changes; the accounting of pieces is kept |
| Rules.CornerCaptureTakesOwnPiece | HasamiShogiGame.py:210-221 | for every anchor of the table whose partner and corner both hold the mover's pieces, the corner is emptied, the mover's own counter rises by one, and the opponent's counter, the game state and the active player are unchanged |
| Rules.CheckCaptures | HasamiShogiGame.py:203-299 | check_captures; Rules.CheckCapturesCells states its effect on the board and counters and Rules.CheckCapturesConserve the accounting of pieces |
| Rules.CheckCapturesRuns | HasamiShogiGame.py:247-299 | the scans down, right and left count the same runs and make the same flank tests as on the board the corner check leaves |
| Rules.CheckCapturesGain | HasamiShogiGame.py:229-299 | the four scans together add the lengths of the flanked runs to the opponent's counter and leave the mover's counter, the game state and the active player alone |
| Rules.CheckCapturesBoard | HasamiShogiGame.py:229-299 | the four scans together empty exactly the squares of the flanked runs, measured on the board the corner check leaves, and keep every other square |
| Rules.CheckCapturesCells | HasamiShogiGame.py:203-299 | check_captures as a whole: after the corner check, every square in a flanked run next to the destination in any direction is emptied and every other square is kept, the opponent's counter rises by the sum of those runs' lengths, and nothing else changes |
| Rules.CheckCapturesConserve | HasamiShogiGame.py:203-299 | the corner check and the four scans keep the accounting of pieces, never lower a counter, and leave the game state and the active player alone |
| Rules.Settle | HasamiShogiGame.py:114-124 | the win test and the change of turn; Rules.SettleDecides states their effect |
| Rules.SettleDecides | HasamiShogiGame.py:114-124 | the win test by equality with 8 or 9, Black's count first, gives the verdict of the counters; the active player flips; no other field changes |
| Rules.MakeMove | HasamiShogiGame.py:93-126 | make_move; Rules.MakeMoveKeepsValid, Rules.MakeMoveRejects, Rules.MakeMoveAccepted and Rules.NoMoveAfterWin state its properties |
| Rules.MakeMoveKeepsValid | HasamiShogiGame.py:83-126 | make_move keeps the invariant (9 pieces per colour between board and counter, state equal to the verdict of the counters) |
| Rules.MakeMoveRejects | HasamiShogiGame.py:94-110 | a rejected move changes nothing; a move naming a square outside the table is rejected, and so is every move in a won game |
| Rules.MakeMoveAccepted | HasamiShogiGame.py:112-126 | an accepted move always passes the turn, even the winning one; it never lowers a counter; the new state is the verdict of the new counters |
| Rules.NoMoveAfterWin | HasamiShogiGame.py:138-141 | once a colour has lost 8 pieces, every later make_move returns False and changes nothing |
| Rules.CountersBounded | HasamiShogiGame.py:115-118 | in a valid game both counters lie in 0..9, so the test "8 or 9" is the test "at least 8" |
| Game.OccupantName | HasamiShogiGame.py:310-316 | an occupant word is "BLACK", "RED" or "NONE", and it is "NONE" exactly for an empty square |
| Game.OccupantInitials | HasamiShogiGame.py:311-316 | the first letter of an occupant word equals the mover's initial exactly when the square holds the mover's piece, and is 'R' or 'B' exactly for a red or a black piece |
| Game.CornerTestAlwaysPasses | HasamiShogiGame.py:215 | an occupant word is never "." and never a single letter, so the second corner test always passes |
| Game.HasamiShogiGame.constructor | HasamiShogiGame.py:27-40 | the new object's fields are the initial game, which satisfies the invariant |
| Game.HasamiShogiGame.GetGameState | HasamiShogiGame.py:58-63 | returns the game-state field, which in a valid game is the verdict of the counters |
| Game.HasamiShogiGame.GetActivePlayer | HasamiShogiGame.py:65-69 | returns the active-player field |
| Game.HasamiShogiGame.GetNumCapturedPieces | HasamiShogiGame.py:71-81 | "BLACK" and "RED" give their counters and any other tag gives None; in a valid game the answer lies in 0..9 |
| Game.HasamiShogiGame.GetSquareOccupant | HasamiShogiGame.py:301-316 | returns "BLACK", "RED" or "NONE" for the occupant of the named square |
| Game.HasamiShogiGame.SetSquareOccupant | HasamiShogiGame.py:318-326 | writes the named square and changes nothing else |
| Game.HasamiShogiGame.MakeMove | HasamiShogiGame.py:83-126 | the answer and the new fields are those of Rules.MakeMove on the old fields, and a valid game stays valid |
| Game.HasamiShogiGame.ValidateMove | HasamiShogiGame.py:128-201 | the answer is Rules.ValidMove of the old fields; an accepted move leaves the fields as Rules.Move says and a rejected one leaves them untouched |
| Game.HasamiShogiGame.CheckCaptures | HasamiShogiGame.py:203-299 | the fields afterwards are Rules.CheckCaptures of the fields before |
| Game.HasamiShogiGame.CaptureLine | HasamiShogiGame.py:229-246 | one scan leaves the fields as Rules.LineCapture says |
| Game.HasamiShogiGame.TakeRun | HasamiShogiGame.py:238-245 | once the run is flanked, the counter update and the for loop leave the fields as Rules.LineCapture says |
| Game.HasamiShogiGame.ScanRun | HasamiShogiGame.py:230-237 | the while loop counts exactly the run of opponent pieces and stops on the square just past it |
| Game.HasamiShogiGame.EmptyRun | HasamiShogiGame.py:243-245 | the for loop, walking back from the flanking square, leaves the board as Rules.ClearRun says: the run emptied and nothing else changed |

## Left out

- `print_board` (lines 328-335) only prints the board, so it is not modelled.
- Row 0 and column 0 of the source's board hold labels that the rules never read. The grid is only the 9x9 playing area, read with the source's 1-based indices.
- Spellings are datatypes. The board letters `'B'`, `'R'` and `'.'` become `Cell`. The player and game-state strings become `Color` and `GameState`. Only the occupant words `"BLACK"`, `"RED"` and `"NONE"` stay strings, because the corner test compares them with letters.
- Game.HasamiShogiGame.SetSquareOccupant takes a `Cell`, not an arbitrary string. The source only ever writes `'.'` through it.
- Game.HasamiShogiGame.GetSquareOccupant and Game.HasamiShogiGame.SetSquareOccupant require a name from the table. With any other name the source fails on `None[0]` (lines 307-308, 323-324); that exception is not modelled.
- Game.HasamiShogiGame.MakeMove states the invariant only as "valid before implies valid after". An object whose fields were set to an inconsistent state by other means is covered only by the equation with Rules.MakeMove.
- The methods require the board to be a 9x9 grid, and ValidateMove, CheckCaptures and CaptureLine require on-board squares. The source's board always has that shape, and these methods receive their squares from the table.
- The source's board is a list of lists updated in place. The model's board is a value that each write replaces, so aliasing of the lists is not modelled. The object has no other aliases.
- Python integers are unbounded, and so are the model's. The counters never exceed 9 in a valid game (Rules.CountersBounded).
