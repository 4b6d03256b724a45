/** The game object. Its fields are the source's instance fields and its
    methods change them in place, step by step, as the source does; each method
    is proved to leave the fields as the matching function of module Rules
    says, so what is proved there holds of the object. */
module Game {
  import opened Board
  import opened Rules

  /** The word get_square_occupant answers with. */
  function OccupantName(c: Cell): (s: string)
    ensures s == "BLACK" || s == "RED" || s == "NONE"
    ensures s == "NONE" <==> c == Empty
  {
    match c
    case Piece(Black) => "BLACK"
    case Piece(Red) => "RED"
    case Empty => "NONE"
  }

  /** The word held in the active-player field. */
  function PlayerName(p: Color): string {
    if p == Black then "BLACK" else "RED"
  }

  /** The first letters used by the corner check: an occupant word starts with
      the letter of the active player exactly when it names that player's colour. */
  lemma OccupantInitials(c: Cell, p: Color)
    ensures OccupantName(c)[0] == PlayerName(p)[0] <==> c == Piece(p)
    ensures OccupantName(c)[0] == 'R' <==> c == Piece(Red)
    ensures OccupantName(c)[0] == 'B' <==> c == Piece(Black)
  {
  }

  /** The second test of the corner check compares an occupant WORD with a board
      LETTER ('.', or the first letter of the active player), so it never fails:
      this is why the corner check removes the mover's own piece too. */
  lemma CornerTestAlwaysPasses(c: Cell, p: Color)
    ensures OccupantName(c) != "." && OccupantName(c) != [PlayerName(p)[0]]
  {
    assert |OccupantName(c)| >= 3;
  }

  /** Taking m steps and then n more is taking m + n steps. */
  lemma StepsAdd(sq: Square, d: Dir, m: int, n: int)
    ensures Step(Step(sq, d, m), d, n) == Step(sq, d, m + n)
  {
  }

  /** No square of the board is 9 or more steps from another. */
  lemma StepsReach(sq: Square, d: Dir, n: int)
    requires OnBoard(sq) && OnBoard(Step(sq, d, n))
    ensures -8 <= n <= 8
  {
  }

  class HasamiShogiGame {
    var gameState: GameState
    var activePlayer: Color
    /** The number of BLACK pieces captured (by Red). */
    var blackNumCapturedPieces: int
    /** The number of RED pieces captured (by Black). */
    var redNumCapturedPieces: int
    var board: Grid

    /** The fields as one value. */
    function Snapshot(): State
      reads this
    {
      State(board, gameState, activePlayer, blackNumCapturedPieces, redNumCapturedPieces)
    }

    ghost predicate Valid()
      reads this
    {
      Rules.Valid(Snapshot())
    }

    constructor ()
      ensures Snapshot() == Initial() && Valid()
    {
      gameState := Unfinished;
      activePlayer := Black;
      blackNumCapturedPieces := 0;
      redNumCapturedPieces := 0;
      board := InitialBoard();
      InitialValid();
    }

    /** The stored game state; in a valid game it is the verdict of the counters. */
    method GetGameState() returns (state: GameState)
      ensures state == gameState
      ensures Valid() ==> state == Verdict(blackNumCapturedPieces, redNumCapturedPieces)
    {
      state := gameState;
    }

    method GetActivePlayer() returns (player: Color)
      ensures player == activePlayer
    {
      player := activePlayer;
    }

    /** The count for "BLACK" or "RED"; any other tag gets no answer. */
    method GetNumCapturedPieces(colorStr: string) returns (count: Option<int>)
      ensures colorStr == "BLACK" ==> count == Some(blackNumCapturedPieces)
      ensures colorStr == "RED" ==> count == Some(redNumCapturedPieces)
      ensures colorStr != "BLACK" && colorStr != "RED" ==> count == None
      ensures Valid() && count.Some? ==> 0 <= count.value <= 9
    {
      if colorStr == "BLACK" {
        count := Some(blackNumCapturedPieces);
      } else if colorStr == "RED" {
        count := Some(redNumCapturedPieces);
      } else {
        count := None;
      }
    }

    /** The occupant of a named square, as a word. */
    method GetSquareOccupant(squareStr: string) returns (occupant: string)
      requires IsBoard(board) && SquareIndex(squareStr).Some?
      ensures occupant == OccupantName(At(board, SquareIndex(squareStr).value))
    {
      var squareIndex := SquareIndex(squareStr).value;
      var row, col := squareIndex.0, squareIndex.1;
      var cell := At(board, (row, col));
      if cell == Piece(Black) {
        occupant := "BLACK";
      } else if cell == Piece(Red) {
        occupant := "RED";
      } else {
        occupant := "NONE";
      }
    }

    method SetSquareOccupant(squareStr: string, newOccupant: Cell)
      requires IsBoard(board) && SquareIndex(squareStr).Some?
      modifies this
      ensures Snapshot() == old(Snapshot()).(board := Put(old(board), SquareIndex(squareStr).value, newOccupant))
    {
      var squareIndex := SquareIndex(squareStr).value;
      var row, col := squareIndex.0, squareIndex.1;
      board := Put(board, (row, col), newOccupant);
    }

    /** Tries one move: resolves both names, validates and performs the move,
        resolves the captures, then sets the game state and passes the turn. */
    method MakeMove(fromSquareStr: string, toSquareStr: string) returns (ok: bool)
      requires IsBoard(board)
      modifies this
      ensures old(Valid()) ==> Valid()
      ensures (ok, Snapshot()) == Rules.MakeMove(old(Snapshot()), fromSquareStr, toSquareStr)
    {
      ghost var before := Snapshot();
      var moveFromIndex := SquareIndex(fromSquareStr);
      var moveToIndex := SquareIndex(toSquareStr);
      if moveFromIndex.None? || moveToIndex.None? {
        return false;
      }
      var fromRow, fromCol := moveFromIndex.value.0, moveFromIndex.value.1;
      var toRow, toCol := moveToIndex.value.0, moveToIndex.value.1;

      var moveValidation := ValidateMove(fromRow, fromCol, toRow, toCol);
      if !moveValidation {
        return false;
      }
      ghost var moved := Snapshot();
      CheckCaptures(toRow, toCol, toSquareStr);
      ghost var captured := Snapshot();
      assert captured == Rules.CheckCaptures(moved, (toRow, toCol), toSquareStr);
      assert Rules.MakeMove(before, fromSquareStr, toSquareStr) == (true, Settle(captured));

      if blackNumCapturedPieces == 8 || blackNumCapturedPieces == 9 {
        gameState := RedWon;
      } else if redNumCapturedPieces == 8 || redNumCapturedPieces == 9 {
        gameState := BlackWon;
      }
      if activePlayer == Black {
        activePlayer := Red;
      } else {
        activePlayer := Black;
      }
      ok := true;
      assert Snapshot() == Settle(captured);
      if Rules.Valid(before) {
        MakeMoveKeepsValid(before, fromSquareStr, toSquareStr);
      }
    }

    /** Accepts or rejects a move and, when it accepts, moves the piece. The
        loops walk the path from the square after the source up to and including
        the destination. */
    method ValidateMove(fromRow: int, fromCol: int, toRow: int, toCol: int) returns (ok: bool)
      requires IsBoard(board) && OnBoard((fromRow, fromCol)) && OnBoard((toRow, toCol))
      modifies this
      ensures ok == ValidMove(old(Snapshot()), (fromRow, fromCol), (toRow, toCol))
      ensures Snapshot() == if ok then Move(old(Snapshot()), (fromRow, fromCol), (toRow, toCol)) else old(Snapshot())
    {
      var movingPiece := At(board, (fromRow, fromCol));
      if movingPiece != Piece(activePlayer) {
        return false;
      } else if gameState == BlackWon || gameState == RedWon {
        return false;
      } else if fromRow != toRow && fromCol != toCol {
        return false;
      } else if fromRow == toRow && fromCol == toCol {
        return false;
      }
      if fromRow == toRow && fromCol != toCol {
        if toCol > fromCol {
          // along the row, to the right
          var col := fromCol + 1;
          while col <= toCol
            invariant fromCol < col <= toCol + 1
            invariant forall j | fromCol < j < col :: At(board, (toRow, j)) == Empty
          {
            if At(board, (toRow, col)) != Empty {
              assert OnPath((fromRow, fromCol), (toRow, toCol), (toRow, col));
              return false;
            }
            col := col + 1;
          }
        } else {
          // along the row, to the left
          var col := fromCol - 1;
          while col >= toCol
            invariant toCol - 1 <= col < fromCol
            invariant forall j | col < j < fromCol :: At(board, (toRow, j)) == Empty
          {
            if At(board, (toRow, col)) != Empty {
              assert OnPath((fromRow, fromCol), (toRow, toCol), (toRow, col));
              return false;
            }
            col := col - 1;
          }
        }
      } else {
        if toRow > fromRow {
          // along the column, downwards
          var row := fromRow + 1;
          while row <= toRow
            invariant fromRow < row <= toRow + 1
            invariant forall j | fromRow < j < row :: At(board, (j, toCol)) == Empty
          {
            if At(board, (row, toCol)) != Empty {
              assert OnPath((fromRow, fromCol), (toRow, toCol), (row, toCol));
              return false;
            }
            row := row + 1;
          }
        } else {
          // along the column, upwards
          var row := fromRow - 1;
          while row >= toRow
            invariant toRow - 1 <= row < fromRow
            invariant forall j | row < j < fromRow :: At(board, (j, toCol)) == Empty
          {
            if At(board, (row, toCol)) != Empty {
              assert OnPath((fromRow, fromCol), (toRow, toCol), (row, toCol));
              return false;
            }
            row := row - 1;
          }
        }
      }
      board := Put(board, (toRow, toCol), movingPiece);
      board := Put(board, (fromRow, fromCol), Empty);
      return true;
    }

    /** The corner check, then the four scans from the destination. */
    method CheckCaptures(toRow: int, toCol: int, toSquareStr: string)
      requires IsBoard(board) && OnBoard((toRow, toCol))
      modifies this
      ensures Snapshot() == Rules.CheckCaptures(old(Snapshot()), (toRow, toCol), toSquareStr)
    {
      if toSquareStr in CornerCaptures {
        CornerEntry(toSquareStr);
        var cornerCaptureList := CornerCaptures[toSquareStr];
        var correspondingSquareColor := GetSquareOccupant(cornerCaptureList.0);
        var cornerSquareColor := GetSquareOccupant(cornerCaptureList.1);
        var activeInitial := PlayerName(activePlayer)[0];
        OccupantInitials(At(board, SquareIndex(cornerCaptureList.0).value), activePlayer);
        OccupantInitials(At(board, SquareIndex(cornerCaptureList.1).value), activePlayer);
        if correspondingSquareColor[0] == activeInitial {
          CornerTestAlwaysPasses(At(board, SquareIndex(cornerCaptureList.1).value), activePlayer);
          if cornerSquareColor != "." && cornerSquareColor != [activeInitial] {
            if cornerSquareColor[0] == 'R' {
              redNumCapturedPieces := redNumCapturedPieces + 1;
              SetSquareOccupant(cornerCaptureList.1, Empty);
            } else if cornerSquareColor[0] == 'B' {
              blackNumCapturedPieces := blackNumCapturedPieces + 1;
              SetSquareOccupant(cornerCaptureList.1, Empty);
            }
          }
        }
      }
      assert Snapshot() == CornerCapture(old(Snapshot()), toSquareStr);
      CaptureLine(toRow, toCol, Up);
      CaptureLine(toRow, toCol, Down);
      CaptureLine(toRow, toCol, Right);
      CaptureLine(toRow, toCol, Left);
    }

    /** One of the four scans: counts the run of opponent pieces next to the
        destination in direction d and, when a piece of the mover's closes it,
        adds the count to the opponent's counter and empties the run, starting
        from the far end. */
    method CaptureLine(toRow: int, toCol: int, d: Dir)
      requires IsBoard(board) && OnBoard((toRow, toCol))
      modifies this
      ensures Snapshot() == LineCapture(old(Snapshot()), (toRow, toCol), d)
    {
      var to := (toRow, toCol);
      var me := activePlayer;
      var captureCounter, pos := ScanRun(to, d);
      if captureCounter > 0 && OnBoard(pos) && At(board, pos) == Piece(me) {
        TakeRun(to, d, captureCounter, pos);
      } else {
        assert !Flanked(board, to, d, me);
      }
    }

    /** The body of a scan's last `if`, once the run is known to be flanked: adds
        the run's length to the opponent's counter and empties the run. */
    method TakeRun(to: Square, d: Dir, captureCounter: nat, pos: Square)
      requires IsBoard(board) && OnBoard(to)
      requires captureCounter == RunAt(board, to, d, activePlayer, 1)
      requires pos == Step(to, d, captureCounter + 1)
      requires Flanked(board, to, d, activePlayer)
      modifies this
      ensures Snapshot() == LineCapture(old(Snapshot()), to, d)
    {
      ghost var r := LineCapture(Snapshot(), to, d);
      assert r.board == ClearRun(board, to, d, captureCounter, 0);
      if activePlayer == Black {
        redNumCapturedPieces := redNumCapturedPieces + captureCounter;
      } else {
        blackNumCapturedPieces := blackNumCapturedPieces + captureCounter;
      }
      EmptyRun(to, d, captureCounter, pos);
    }

    /** The `while` loop of a scan: counts the opponent pieces next to `to` in
        direction d and returns the first square past them. */
    method ScanRun(to: Square, d: Dir) returns (captureCounter: nat, pos: Square)
      requires IsBoard(board) && OnBoard(to)
      ensures captureCounter == RunAt(board, to, d, activePlayer, 1)
      ensures pos == Step(to, d, captureCounter + 1)
    {
      var g, me := board, activePlayer;
      captureCounter := 0;
      pos := Step(to, d, 1);
      while Foe(g, pos, me)
        invariant pos == Step(to, d, captureCounter + 1)
        invariant forall j | 1 <= j < captureCounter + 1 :: Foe(g, Step(to, d, j), me)
        decreases 9 - captureCounter
      {
        StepsReach(to, d, captureCounter + 1);
        captureCounter := captureCounter + 1;
        StepsAdd(to, d, captureCounter, 1);
        pos := Step(pos, d, 1);
      }
      RunAtExact(g, to, d, me, 1, captureCounter);
    }

    /** The `for` loop of a scan: walks back from the flanking square `flank`,
        which is n + 1 steps from `to`, emptying the n squares of the run. */
    method EmptyRun(to: Square, d: Dir, n: nat, flank: Square)
      requires IsBoard(board) && Reaches(to, d, n) && flank == Step(to, d, n + 1)
      modifies this`board
      ensures board == ClearRun(old(board), to, d, n, 0)
    {
      var pos := flank;
      for num := 0 to n
        invariant IsBoard(board) && pos == Step(to, d, n + 1 - num)
        invariant board == ClearRun(old(board), to, d, n, n - num)
      {
        StepsAdd(to, d, n + 1 - num, -1);
        pos := Step(pos, d, -1);
        ReachesShorter(to, d, n, n - num);
        board := Put(board, pos, Empty);
      }
    }
  }
}
