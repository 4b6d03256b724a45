/** The rules of the game as functions of a snapshot of the game's fields: the
    check that `validate_move` makes, the move it performs, the corner and the
    custodian (linear) captures of `check_captures`, the win test and the turn
    change of `make_move`; with the lemmas that say what each promises. */
module Rules {
  import opened Board

  datatype GameState = Unfinished | BlackWon | RedWon

  /** The fields of a game object. blackCaptured and redCaptured count the
      pieces OF that colour that have been captured, so Black's captures raise
      redCaptured. */
  datatype State = State(board: Grid, gameState: GameState, active: Color,
                         blackCaptured: int, redCaptured: int)

  /** Row 'a' all red, row 'i' all black, the rows between empty. */
  function InitialBoard(): (g: Grid)
    ensures IsBoard(g)
  {
    seq(9, r => seq(9, k => if r == 0 then Piece(Red) else if r == 8 then Piece(Black) else Empty))
  }

  function Initial(): State {
    State(InitialBoard(), Unfinished, Black, 0, 0)
  }

  /** The number of captured pieces of colour c. */
  function Captured(st: State, c: Color): int {
    if c == Black then st.blackCaptured else st.redCaptured
  }

  /** Who has won, judged from the counters alone: a colour that has lost 8 or
      more of its 9 pieces has lost the game, Black's losses being looked at first. */
  function Verdict(blackCaptured: int, redCaptured: int): GameState {
    if blackCaptured >= 8 then RedWon else if redCaptured >= 8 then BlackWon else Unfinished
  }

  /** Every piece of a colour is either on the board or counted as captured. */
  predicate Conserved(st: State)
    requires IsBoard(st.board)
  {
    st.blackCaptured >= 0 && st.redCaptured >= 0 &&
    Count(st.board, Black) + st.blackCaptured == 9 &&
    Count(st.board, Red) + st.redCaptured == 9
  }

  /** The invariant of every game reachable from the initial one. */
  predicate Valid(st: State) {
    IsBoard(st.board) && Conserved(st) &&
    st.gameState == Verdict(st.blackCaptured, st.redCaptured)
  }

  /** The starting position: row 'a' red, row 'i' black, rows 'b'..'h' empty;
      Black to move in an unfinished game with nothing captured. */
  lemma InitialLayout()
    ensures forall k | 1 <= k <= 9 :: At(InitialBoard(), (1, k)) == Piece(Red)
    ensures forall k | 1 <= k <= 9 :: At(InitialBoard(), (9, k)) == Piece(Black)
    ensures forall r, k | 2 <= r <= 8 && 1 <= k <= 9 :: At(InitialBoard(), (r, k)) == Empty
    ensures Initial().active == Black && Initial().gameState == Unfinished
    ensures Initial().blackCaptured == 0 && Initial().redCaptured == 0
  {
  }

  /** A board whose only c pieces lie in row h holds as many as that row. */
  lemma {:induction false} CountOneRow(g: Grid, c: Color, h: int)
    requires 0 <= h < |g|
    requires forall i | 0 <= i < |g| && i != h :: RowCount(g[i], c) == 0
    ensures Count(g, c) == RowCount(g[h], c)
  {
    if h == 0 {
      CountNoRow(g[1..], c);
    } else {
      CountOneRow(g[1..], c, h - 1);
    }
  }

  /** A board none of whose rows holds a c piece holds none. */
  lemma {:induction false} CountNoRow(g: Grid, c: Color)
    requires forall i | 0 <= i < |g| :: RowCount(g[i], c) == 0
    ensures Count(g, c) == 0
  {
    if |g| > 0 {
      CountNoRow(g[1..], c);
    }
  }

  /** Each colour starts with its 9 pieces, all in its home row. */
  lemma InitialCounts(c: Color)
    ensures Count(InitialBoard(), c) == 9
  {
    var g := InitialBoard();
    var h := if c == Red then 0 else 8;
    forall i | 0 <= i < 9
      ensures RowCount(g[i], c) == if i == h then 9 else 0
    {
      RowCountBounds(g[i], c);
    }
    CountOneRow(g, c, h);
  }

  /** The initial game satisfies the invariant. */
  lemma InitialValid()
    ensures Valid(Initial())
  {
    InitialCounts(Black);
    InitialCounts(Red);
  }

  // ---------------------------------------------------------------------------
  // validate_move

  /** x lies strictly past a and no further than b, on the way from a to b. */
  predicate Within(a: int, b: int, x: int) {
    x != a && ((a <= x <= b) || (b <= x <= a))
  }

  /** sq is one of the squares the while loops of validate_move look at: on the
      straight line from f to t, after f, up to and including t. */
  predicate OnPath(f: Square, t: Square, sq: Square) {
    (sq.0 == f.0 == t.0 && Within(f.1, t.1, sq.1)) ||
    (sq.1 == f.1 == t.1 && Within(f.0, t.0, sq.0))
  }

  predicate PathClear(g: Grid, f: Square, t: Square)
    requires IsBoard(g)
  {
    forall r, k | 1 <= r <= 9 && 1 <= k <= 9 && OnPath(f, t, (r, k)) :: At(g, (r, k)) == Empty
  }

  /** The answer of validate_move: the active player's own piece, a game that
      nobody has won, a move along a row or a column that goes somewhere, and
      nothing on the squares it passes or lands on. */
  predicate ValidMove(st: State, f: Square, t: Square)
    requires IsBoard(st.board) && OnBoard(f) && OnBoard(t)
  {
    At(st.board, f) == Piece(st.active) &&
    st.gameState != BlackWon && st.gameState != RedWon &&
    !(f.0 != t.0 && f.1 != t.1) &&
    !(f.0 == t.0 && f.1 == t.1) &&
    PathClear(st.board, f, t)
  }

  /** The board change that validate_move makes once the move is accepted. */
  function Move(st: State, f: Square, t: Square): State
    requires IsBoard(st.board) && OnBoard(f) && OnBoard(t)
  {
    st.(board := Put(Put(st.board, t, At(st.board, f)), f, Empty))
  }

  /** Each of the source's rejections on its own. */
  lemma ValidMoveRejects(st: State, f: Square, t: Square)
    requires IsBoard(st.board) && OnBoard(f) && OnBoard(t)
    ensures At(st.board, f) != Piece(st.active) ==> !ValidMove(st, f, t)
    ensures st.gameState != Unfinished ==> !ValidMove(st, f, t)
    ensures f.0 != t.0 && f.1 != t.1 ==> !ValidMove(st, f, t)
    ensures f == t ==> !ValidMove(st, f, t)
    ensures forall sq | OnBoard(sq) && OnPath(f, t, sq) && At(st.board, sq) != Empty :: !ValidMove(st, f, t)
  {
  }

  /** The destination is the last square of the path, so an accepted move lands
      on an empty square, and the moving piece is the mover's. */
  lemma ValidMoveLandsOnEmpty(st: State, f: Square, t: Square)
    requires IsBoard(st.board) && OnBoard(f) && OnBoard(t)
    requires ValidMove(st, f, t)
    ensures At(st.board, t) == Empty && At(st.board, f) == Piece(st.active)
    ensures st.gameState == Unfinished
  {
    assert OnPath(f, t, t);
  }

  /** An accepted move puts the piece on t, empties f, leaves every other square
      and all the other fields as they were, and keeps the number of pieces of
      each colour. */
  lemma MoveEffect(st: State, f: Square, t: Square)
    requires IsBoard(st.board) && OnBoard(f) && OnBoard(t)
    requires ValidMove(st, f, t)
    ensures var g := Move(st, f, t).board;
      IsBoard(g) && At(g, t) == Piece(st.active) && At(g, f) == Empty &&
      (forall sq | OnBoard(sq) && sq != f && sq != t :: At(g, sq) == At(st.board, sq))
    ensures Move(st, f, t).(board := st.board) == st
    ensures forall c :: Count(Move(st, f, t).board, c) == Count(st.board, c)
  {
    ValidMoveLandsOnEmpty(st, f, t);
    var g1 := Put(st.board, t, At(st.board, f));
    forall c ensures Count(Move(st, f, t).board, c) == Count(st.board, c) {
      PutCount(st.board, t, At(st.board, f), c);
      PutCount(g1, f, Empty, c);
    }
  }

  // ---------------------------------------------------------------------------
  // check_captures: the four linear scans

  /** The four directions that check_captures scans, in its order. */
  datatype Dir = Up | Down | Right | Left

  /** The square n steps from sq in direction d. */
  function Step(sq: Square, d: Dir, n: int): Square {
    match d
    case Up => (sq.0 - n, sq.1)
    case Down => (sq.0 + n, sq.1)
    case Right => (sq.0, sq.1 + n)
    case Left => (sq.0, sq.1 - n)
  }

  /** The condition of a scan's loop: sq is on the board and holds a piece
      that is not the mover's, that is, an opponent piece. */
  predicate Foe(g: Grid, sq: Square, me: Color)
    requires IsBoard(g)
  {
    OnBoard(sq) && At(g, sq) != Piece(me) && At(g, sq) != Empty
  }

  /** The length of the run of opponent pieces that begins i steps from `to` in
      direction d: what the while loop of a scan counts in capture_counter. */
  function RunAt(g: Grid, to: Square, d: Dir, me: Color, i: nat): (k: nat)
    requires IsBoard(g) && OnBoard(to)
    decreases 10 - i
  {
    if Foe(g, Step(to, d, i), me) then
      1 + RunAt(g, to, d, me, i + 1)
    else
      0
  }

  /** A run continues past an opponent piece. */
  lemma RunAtNext(g: Grid, to: Square, d: Dir, me: Color, i: nat)
    requires IsBoard(g) && OnBoard(to) && Foe(g, Step(to, d, i), me)
    ensures RunAt(g, to, d, me, i) == 1 + RunAt(g, to, d, me, i + 1)
  {
  }

  /** A run stops at the edge, at an empty square or at one of the mover's pieces. */
  lemma RunAtStop(g: Grid, to: Square, d: Dir, me: Color, i: nat)
    requires IsBoard(g) && OnBoard(to)
    requires !Foe(g, Step(to, d, i), me)
    ensures RunAt(g, to, d, me, i) == 0
  {
  }

  /** A run of n opponent pieces followed by anything else has length n. */
  lemma {:induction false} RunAtExact(g: Grid, to: Square, d: Dir, me: Color, i: nat, n: nat)
    requires IsBoard(g) && OnBoard(to)
    requires forall j | i <= j < i + n :: Foe(g, Step(to, d, j), me)
    requires !Foe(g, Step(to, d, i + n), me)
    ensures RunAt(g, to, d, me, i) == n
    decreases n
  {
    if n > 0 {
      RunAtNext(g, to, d, me, i);
      RunAtExact(g, to, d, me, i + 1, n - 1);
    } else {
      RunAtStop(g, to, d, me, i);
    }
  }

  /** Every square of the run counted from i holds an opponent piece. */
  lemma {:induction false} RunAtFoe(g: Grid, to: Square, d: Dir, me: Color, i: nat, j: int)
    requires IsBoard(g) && OnBoard(to)
    requires i <= j < i + RunAt(g, to, d, me, i)
    ensures OnBoard(Step(to, d, j)) && At(g, Step(to, d, j)) == Piece(Opponent(me))
    decreases j - i
  {
    if j > i {
      RunAtFoe(g, to, d, me, i + 1, j);
    }
  }

  /** A run ends where the squares stop holding opponent pieces: the square just
      past it is off the board, empty or the mover's. */
  lemma {:induction false} RunAtEnd(g: Grid, to: Square, d: Dir, me: Color, i: nat, k: nat)
    requires IsBoard(g) && OnBoard(to) && k == RunAt(g, to, d, me, i)
    ensures !Foe(g, Step(to, d, i + k), me)
    decreases k
  {
    if k > 0 {
      RunAtEnd(g, to, d, me, i + 1, k - 1);
    }
  }

  /** g and h agree on every square of the ray from `to` in direction d. */
  ghost predicate SameRay(g: Grid, h: Grid, to: Square, d: Dir)
    requires IsBoard(g) && IsBoard(h)
  {
    forall j | 1 <= j && OnBoard(Step(to, d, j)) :: At(g, Step(to, d, j)) == At(h, Step(to, d, j))
  }

  /** A run reads only the squares of its own ray. */
  lemma {:induction false} RunAtFrame(g: Grid, h: Grid, to: Square, d: Dir, me: Color, i: nat)
    requires IsBoard(g) && IsBoard(h) && OnBoard(to) && SameRay(g, h, to, d) && 1 <= i
    ensures RunAt(g, to, d, me, i) == RunAt(h, to, d, me, i)
    decreases 10 - i
  {
    var sq := Step(to, d, i);
    if Foe(g, sq, me) {
      assert Foe(h, sq, me);
      RunAtNext(g, to, d, me, i);
      RunAtNext(h, to, d, me, i);
      RunAtFrame(g, h, to, d, me, i + 1);
    } else {
      assert !Foe(h, sq, me);
      RunAtStop(g, to, d, me, i);
      RunAtStop(h, to, d, me, i);
    }
  }

  /** sq is one of the n squares next to `to` in direction d. */
  predicate InRun(to: Square, d: Dir, n: int, sq: Square) {
    match d
    case Up => sq.1 == to.1 && to.0 - n <= sq.0 < to.0
    case Down => sq.1 == to.1 && to.0 < sq.0 <= to.0 + n
    case Right => sq.0 == to.0 && to.1 < sq.1 <= to.1 + n
    case Left => sq.0 == to.0 && to.1 - n <= sq.1 < to.1
  }

  /** The first n squares from `to` in direction d are all on the board: as the
      board is a rectangle, it is enough that `to` and the n-th one are. */
  predicate Reaches(to: Square, d: Dir, n: int) {
    OnBoard(to) && (n <= 0 || OnBoard(Step(to, d, n)))
  }

  /** A shorter run from the same square stays on the board. */
  lemma ReachesShorter(to: Square, d: Dir, n: int, k: int)
    requires Reaches(to, d, n) && k <= n
    ensures Reaches(to, d, k)
  {
  }

  /** The board after the `for` loop of a scan, walking back from the far end of
      a run of n squares, has emptied the squares k + 1 .. n steps from `to`;
      the finished loop is k = 0. */
  function ClearRun(g: Grid, to: Square, d: Dir, n: nat, k: nat): (h: Grid)
    requires IsBoard(g) && Reaches(to, d, n) && k <= n
    ensures IsBoard(h)
    decreases n - k
  {
    if k == n then g else Put(ClearRun(g, to, d, n, k + 1), Step(to, d, k + 1), Empty)
  }

  /** Clearing empties exactly the squares k + 1 .. n steps from `to` and leaves
      every other square as it was. */
  lemma ClearRunCells(g: Grid, to: Square, d: Dir, n: nat, k: nat)
    requires IsBoard(g) && Reaches(to, d, n) && k <= n
    ensures var h := ClearRun(g, to, d, n, k);
      forall sq | OnBoard(sq) :: At(h, sq) == if InRun(to, d, n, sq) && !InRun(to, d, k, sq) then Empty else At(g, sq)
  {
    forall sq | OnBoard(sq)
      ensures At(ClearRun(g, to, d, n, k), sq) == if InRun(to, d, n, sq) && !InRun(to, d, k, sq) then Empty else At(g, sq)
    {
      ClearRunCell(g, to, d, n, k, sq);
    }
  }

  /** ClearRunCells for one square, by induction on the squares left to clear. */
  lemma {:induction false} ClearRunCell(g: Grid, to: Square, d: Dir, n: nat, k: nat, sq: Square)
    requires IsBoard(g) && Reaches(to, d, n) && k <= n && OnBoard(sq)
    ensures At(ClearRun(g, to, d, n, k), sq) == if InRun(to, d, n, sq) && !InRun(to, d, k, sq) then Empty else At(g, sq)
    decreases n - k
  {
    if k < n {
      InRunNext(to, d, k, sq);
      if sq != Step(to, d, k + 1) {
        ClearRunCell(g, to, d, n, k + 1, sq);
      } else {
        assert InRun(to, d, n, sq);
      }
    }
  }

  /** The run of k + 1 squares is the run of k squares and the square k + 1 steps away. */
  lemma InRunNext(to: Square, d: Dir, k: nat, sq: Square)
    ensures InRun(to, d, k + 1, sq) <==> InRun(to, d, k, sq) || sq == Step(to, d, k + 1)
    ensures !InRun(to, d, k, sq) || sq != Step(to, d, k + 1)
  {
  }

  /** Clearing the squares k + 1 .. n of a run of x pieces removes exactly
      n - k x pieces. */
  lemma {:induction false} ClearRunCount(g: Grid, to: Square, d: Dir, n: nat, k: nat, x: Color)
    requires IsBoard(g) && Reaches(to, d, n) && k <= n
    requires forall i | k < i <= n :: OnBoard(Step(to, d, i)) && At(g, Step(to, d, i)) == Piece(x)
    ensures Count(ClearRun(g, to, d, n, k), x) == Count(g, x) - (n - k)
    decreases n - k
  {
    if k < n {
      ClearRunCount(g, to, d, n, k + 1, x);
      ClearOneCount(g, to, d, n, k, x);
    } else {
      ClearRunDone(g, to, d, n);
    }
  }

  /** Emptying a run of x pieces leaves the count of the other colour as it was. */
  lemma {:induction false} ClearRunKeeps(g: Grid, to: Square, d: Dir, n: nat, k: nat, x: Color, y: Color)
    requires IsBoard(g) && Reaches(to, d, n) && k <= n && y != x
    requires forall i | k < i <= n :: OnBoard(Step(to, d, i)) && At(g, Step(to, d, i)) == Piece(x)
    ensures Count(ClearRun(g, to, d, n, k), y) == Count(g, y)
    decreases n - k
  {
    if k < n {
      ClearRunKeeps(g, to, d, n, k + 1, x, y);
      ClearOneKeeps(g, to, d, n, k, x, y);
    } else {
      ClearRunDone(g, to, d, n);
    }
  }

  /** Emptying no square leaves the board as it was. */
  lemma ClearRunDone(g: Grid, to: Square, d: Dir, n: nat)
    requires IsBoard(g) && Reaches(to, d, n)
    ensures ClearRun(g, to, d, n, n) == g
  {
  }

  /** One pass of the `for` loop takes one x piece off the board. */
  lemma ClearOneCount(g: Grid, to: Square, d: Dir, n: nat, k: nat, x: Color)
    requires IsBoard(g) && Reaches(to, d, n) && k < n
    requires OnBoard(Step(to, d, k + 1)) && At(g, Step(to, d, k + 1)) == Piece(x)
    ensures Count(ClearRun(g, to, d, n, k), x) == Count(ClearRun(g, to, d, n, k + 1), x) - 1
  {
    var h1 := ClearRun(g, to, d, n, k + 1);
    var far := Step(to, d, k + 1);
    ClearRunCell(g, to, d, n, k + 1, far);
    assert InRun(to, d, k + 1, far);
    PutCount(h1, far, Empty, x);
  }

  /** One pass of the `for` loop leaves the y pieces alone. */
  lemma ClearOneKeeps(g: Grid, to: Square, d: Dir, n: nat, k: nat, x: Color, y: Color)
    requires IsBoard(g) && Reaches(to, d, n) && k < n && y != x
    requires OnBoard(Step(to, d, k + 1)) && At(g, Step(to, d, k + 1)) == Piece(x)
    ensures Count(ClearRun(g, to, d, n, k), y) == Count(ClearRun(g, to, d, n, k + 1), y)
  {
    var h1 := ClearRun(g, to, d, n, k + 1);
    var far := Step(to, d, k + 1);
    ClearRunCell(g, to, d, n, k + 1, far);
    assert InRun(to, d, k + 1, far);
    PutCount(h1, far, Empty, y);
  }

  /** The test after the while loop: a run of at least one opponent piece whose
      next square is on the board and holds the mover's piece. */
  predicate Flanked(g: Grid, to: Square, d: Dir, me: Color)
    requires IsBoard(g) && OnBoard(to)
  {
    var k := RunAt(g, to, d, me, 1);
    k > 0 && OnBoard(Step(to, d, k + 1)) && At(g, Step(to, d, k + 1)) == Piece(me)
  }

  /** One of the four scans of check_captures (lines 229-299). */
  function LineCapture(st: State, to: Square, d: Dir): (r: State)
    requires IsBoard(st.board) && OnBoard(to)
    ensures IsBoard(r.board)
  {
    var me := st.active;
    var k := RunAt(st.board, to, d, me, 1);
    if Flanked(st.board, to, d, me) then
      var counted := if me == Black then st.(redCaptured := st.redCaptured + k)
                     else st.(blackCaptured := st.blackCaptured + k);
      counted.(board := ClearRun(st.board, to, d, k, 0))
    else
      st
  }

  /** A flanked run of k opponent pieces is emptied and k is added to the
      opponent's counter; no other square and no other field changes. */
  lemma LineCaptureRemovesRun(st: State, to: Square, d: Dir)
    requires IsBoard(st.board) && OnBoard(to)
    requires Flanked(st.board, to, d, st.active)
    ensures var r := LineCapture(st, to, d); var me := st.active;
      var k := RunAt(st.board, to, d, me, 1);
      k >= 1 &&
      Captured(r, Opponent(me)) == Captured(st, Opponent(me)) + k &&
      Captured(r, me) == Captured(st, me) &&
      r.gameState == st.gameState && r.active == me &&
      forall sq | OnBoard(sq) :: At(r.board, sq) == if InRun(to, d, k, sq) then Empty else At(st.board, sq)
  {
    ClearRunCells(st.board, to, d, RunAt(st.board, to, d, st.active, 1), 0);
  }

  /** The flank test in board terms: the run is flanked exactly when it is not
      empty and the square just past it is on the board and occupied, since that
      square never holds an opponent piece. */
  lemma FlankedByBoard(g: Grid, to: Square, d: Dir, me: Color)
    requires IsBoard(g) && OnBoard(to)
    ensures var k := RunAt(g, to, d, me, 1); var past := Step(to, d, 1 + k);
      Flanked(g, to, d, me) <==> (k > 0 && OnBoard(past) && At(g, past) != Empty)
  {
    RunAtEnd(g, to, d, me, 1, RunAt(g, to, d, me, 1));
  }

  /** A scan changes nothing exactly when its run is empty, or the square just
      past the run is off the board or empty. */
  lemma LineCaptureIdle(st: State, to: Square, d: Dir)
    requires IsBoard(st.board) && OnBoard(to)
    ensures var k := RunAt(st.board, to, d, st.active, 1); var past := Step(to, d, 1 + k);
      LineCapture(st, to, d) == st <==> (k == 0 || !OnBoard(past) || At(st.board, past) == Empty)
  {
    FlankedByBoard(st.board, to, d, st.active);
  }

  /** How many steps in direction d lead from `to` to sq. */
  function Distance(to: Square, d: Dir, sq: Square): int {
    match d
    case Up => to.0 - sq.0
    case Down => sq.0 - to.0
    case Right => sq.1 - to.1
    case Left => to.1 - sq.1
  }

  lemma InRunStep(to: Square, d: Dir, n: int, sq: Square)
    requires InRun(to, d, n, sq)
    ensures 1 <= Distance(to, d, sq) <= n && Step(to, d, Distance(to, d, sq)) == sq
  {
  }

  /** A scan never removes one of the mover's own pieces, and never touches an
      empty square: only opponent pieces can change. */
  lemma LineCaptureSparesOwn(st: State, to: Square, d: Dir)
    requires IsBoard(st.board) && OnBoard(to)
    ensures var r := LineCapture(st, to, d);
      forall sq | OnBoard(sq) && At(st.board, sq) != Piece(Opponent(st.active)) :: At(r.board, sq) == At(st.board, sq)
  {
    var me := st.active;
    if Flanked(st.board, to, d, me) {
      var k := RunAt(st.board, to, d, me, 1);
      LineCaptureRemovesRun(st, to, d);
      forall sq | OnBoard(sq) && InRun(to, d, k, sq)
        ensures At(st.board, sq) == Piece(Opponent(me))
      {
        InRunStep(to, d, k, sq);
        RunAtFoe(st.board, to, d, me, 1, Distance(to, d, sq));
      }
    }
  }

  /** A scan keeps every piece accounted for and never lowers a counter. */
  lemma LineCaptureConserves(st: State, to: Square, d: Dir)
    requires IsBoard(st.board) && OnBoard(to) && Conserved(st)
    ensures var r := LineCapture(st, to, d);
      Conserved(r) && r.gameState == st.gameState && r.active == st.active &&
      r.blackCaptured >= st.blackCaptured && r.redCaptured >= st.redCaptured
  {
    var me := st.active;
    var k := RunAt(st.board, to, d, me, 1);
    if Flanked(st.board, to, d, me) {
      forall i | 0 < i <= k
        ensures OnBoard(Step(to, d, i)) && At(st.board, Step(to, d, i)) == Piece(Opponent(me))
      {
        RunAtFoe(st.board, to, d, me, 1, i);
      }
      ClearRunCount(st.board, to, d, k, 0, Opponent(me));
      ClearRunKeeps(st.board, to, d, k, 0, Opponent(me), me);
    }
  }

  /** Whether the scan in direction d empties sq: its run is flanked and sq lies
      in it. */
  predicate Taken(g: Grid, to: Square, d: Dir, me: Color, sq: Square)
    requires IsBoard(g) && OnBoard(to)
  {
    Flanked(g, to, d, me) && InRun(to, d, RunAt(g, to, d, me, 1), sq)
  }

  /** How many pieces the scan in direction d captures. */
  function Gain(g: Grid, to: Square, d: Dir, me: Color): nat
    requires IsBoard(g) && OnBoard(to)
  {
    if Flanked(g, to, d, me) then RunAt(g, to, d, me, 1) else 0
  }

  /** The whole effect of one scan, flanked or not. */
  lemma LineCaptureCells(st: State, to: Square, d: Dir)
    requires IsBoard(st.board) && OnBoard(to)
    ensures var r := LineCapture(st, to, d); var me := st.active;
      Captured(r, Opponent(me)) == Captured(st, Opponent(me)) + Gain(st.board, to, d, me) &&
      Captured(r, me) == Captured(st, me) &&
      r.gameState == st.gameState && r.active == me &&
      forall sq | OnBoard(sq) :: At(r.board, sq) == if Taken(st.board, to, d, me, sq) then Empty else At(st.board, sq)
  {
    if Flanked(st.board, to, d, st.active) {
      LineCaptureRemovesRun(st, to, d);
    }
  }

  /** The rays from a square in two different directions share no square. */
  lemma RaysApart(to: Square, d: Dir, e: Dir, n: int, j: int)
    requires d != e && 1 <= j
    ensures !InRun(to, e, n, Step(to, d, j))
  {
  }

  /** A scan in direction d leaves the ray of every other direction as it was, so
      the later scans of check_captures see the runs of the board they started
      from. */
  lemma LineCaptureKeepsRay(st: State, to: Square, d: Dir, e: Dir)
    requires IsBoard(st.board) && OnBoard(to) && d != e
    ensures var r := LineCapture(st, to, d);
      r.active == st.active &&
      RunAt(r.board, to, e, st.active, 1) == RunAt(st.board, to, e, st.active, 1) &&
      Flanked(r.board, to, e, st.active) == Flanked(st.board, to, e, st.active)
  {
    var r := LineCapture(st, to, d);
    LineCaptureCells(st, to, d);
    forall j | 1 <= j && OnBoard(Step(to, e, j))
      ensures At(r.board, Step(to, e, j)) == At(st.board, Step(to, e, j))
    {
      RaysApart(to, e, d, RunAt(st.board, to, d, st.active, 1), j);
    }
    RunAtFrame(r.board, st.board, to, e, st.active, 1);
  }

  // ---------------------------------------------------------------------------
  // check_captures: the corner capture

  /** The corner check (lines 210-221) as the code does it: when `toStr` is an
      anchor of the table and its partner holds the mover's piece, a corner that
      holds any piece, the mover's own included, is emptied and the counter of
      that piece's colour goes up by one. */
  function CornerCapture(st: State, toStr: string): (r: State)
    requires IsBoard(st.board)
    ensures IsBoard(r.board)
  {
    if toStr in CornerCaptures then
      CornerEntry(toStr);
      var partner := SquareIndex(CornerCaptures[toStr].0).value;
      var corner := SquareIndex(CornerCaptures[toStr].1).value;
      if At(st.board, partner) == Piece(st.active) then
        match At(st.board, corner)
        case Piece(Red) => st.(redCaptured := st.redCaptured + 1, board := Put(st.board, corner, Empty))
        case Piece(Black) => st.(blackCaptured := st.blackCaptured + 1, board := Put(st.board, corner, Empty))
        case Empty => st
      else
        st
    else
      st
  }

  /** Whether the corner check fires: toStr is an anchor, its partner holds the
      mover's piece and the corner holds a piece. */
  predicate CornerFires(st: State, toStr: string)
    requires IsBoard(st.board)
  {
    toStr in CornerCaptures &&
    (CornerEntry(toStr);
     At(st.board, SquareIndex(CornerCaptures[toStr].0).value) == Piece(st.active) &&
     At(st.board, SquareIndex(CornerCaptures[toStr].1).value) != Empty)
  }

  lemma CornerCaptureEffect(st: State, toStr: string)
    requires IsBoard(st.board)
    ensures var r := CornerCapture(st, toStr);
      if CornerFires(st, toStr) then
        CornerEntry(toStr);
        var corner := SquareIndex(CornerCaptures[toStr].1).value;
        var c := At(st.board, corner).color;
        r.board == Put(st.board, corner, Empty) &&
        Captured(r, c) == Captured(st, c) + 1 &&
        Captured(r, Opponent(c)) == Captured(st, Opponent(c)) &&
        r.gameState == st.gameState && r.active == st.active
      else
        r == st
    ensures Conserved(st) ==> Conserved(CornerCapture(st, toStr))
  {
    if CornerFires(st, toStr) {
      CornerEntry(toStr);
      var corner := SquareIndex(CornerCaptures[toStr].1).value;
      PutCount(st.board, corner, Empty, Black);
      PutCount(st.board, corner, Empty, Red);
    }
  }

  /** The corner check removes the mover's own piece from the corner too, and
      charges it to the mover's own counter: for every anchor whose partner and
      corner both hold the mover's pieces, the corner is emptied and the mover's
      counter goes up by one. */
  lemma CornerCaptureTakesOwnPiece(st: State, key: string)
    requires IsBoard(st.board) && key in CornerCaptures
    requires (CornerEntry(key);
      At(st.board, SquareIndex(CornerCaptures[key].0).value) == Piece(st.active) &&
      At(st.board, SquareIndex(CornerCaptures[key].1).value) == Piece(st.active))
    ensures (CornerEntry(key);
      var corner := SquareIndex(CornerCaptures[key].1).value;
      var r := CornerCapture(st, key);
      r.board == Put(st.board, corner, Empty) &&
      Captured(r, st.active) == Captured(st, st.active) + 1 &&
      Captured(r, Opponent(st.active)) == Captured(st, Opponent(st.active)) &&
      r.gameState == st.gameState && r.active == st.active)
  {
    CornerCaptureEffect(st, key);
  }

  // ---------------------------------------------------------------------------
  // check_captures and make_move

  /** check_captures: the corner check, then the scans up, down, right and left. */
  function CheckCaptures(st: State, to: Square, toStr: string): (r: State)
    requires IsBoard(st.board) && OnBoard(to)
    ensures IsBoard(r.board)
  {
    var c := CornerCapture(st, toStr);
    LineCapture(LineCapture(LineCapture(LineCapture(c, to, Up), to, Down), to, Right), to, Left)
  }

  /** The scans down, right and left see the runs of the board the corner check
      leaves: the earlier scans only touch their own rays. */
  lemma CheckCapturesRuns(c: State, to: Square)
    requires IsBoard(c.board) && OnBoard(to)
    ensures var me := c.active; var g := c.board;
      var s1 := LineCapture(c, to, Up); var s2 := LineCapture(s1, to, Down);
      var s3 := LineCapture(s2, to, Right);
      s1.active == me && s2.active == me && s3.active == me &&
      RunAt(s1.board, to, Down, me, 1) == RunAt(g, to, Down, me, 1) &&
      Flanked(s1.board, to, Down, me) == Flanked(g, to, Down, me) &&
      RunAt(s2.board, to, Right, me, 1) == RunAt(g, to, Right, me, 1) &&
      Flanked(s2.board, to, Right, me) == Flanked(g, to, Right, me) &&
      RunAt(s3.board, to, Left, me, 1) == RunAt(g, to, Left, me, 1) &&
      Flanked(s3.board, to, Left, me) == Flanked(g, to, Left, me)
  {
    var s1 := LineCapture(c, to, Up);
    var s2 := LineCapture(s1, to, Down);
    LineCaptureKeepsRay(c, to, Up, Down);
    LineCaptureKeepsRay(c, to, Up, Right);
    LineCaptureKeepsRay(s1, to, Down, Right);
    LineCaptureKeepsRay(c, to, Up, Left);
    LineCaptureKeepsRay(s1, to, Down, Left);
    LineCaptureKeepsRay(s2, to, Right, Left);
  }

  /** The four scans together add the lengths of the flanked runs to the
      opponent's counter and leave the other fields alone. */
  lemma CheckCapturesGain(c: State, to: Square)
    requires IsBoard(c.board) && OnBoard(to)
    ensures var me := c.active; var g := c.board;
      var r := LineCapture(LineCapture(LineCapture(LineCapture(c, to, Up), to, Down), to, Right), to, Left);
      r.active == me && r.gameState == c.gameState &&
      Captured(r, me) == Captured(c, me) &&
      Captured(r, Opponent(me)) == Captured(c, Opponent(me)) +
        Gain(g, to, Up, me) + Gain(g, to, Down, me) + Gain(g, to, Right, me) + Gain(g, to, Left, me)
  {
    var s1 := LineCapture(c, to, Up);
    var s2 := LineCapture(s1, to, Down);
    var s3 := LineCapture(s2, to, Right);
    CheckCapturesRuns(c, to);
    LineCaptureCells(c, to, Up);
    LineCaptureCells(s1, to, Down);
    LineCaptureCells(s2, to, Right);
    LineCaptureCells(s3, to, Left);
  }

  /** The four scans together empty the squares of the flanked runs and no
      other square. */
  lemma CheckCapturesBoard(c: State, to: Square)
    requires IsBoard(c.board) && OnBoard(to)
    ensures var me := c.active; var g := c.board;
      var r := LineCapture(LineCapture(LineCapture(LineCapture(c, to, Up), to, Down), to, Right), to, Left);
      forall sq | OnBoard(sq) ::
        At(r.board, sq) ==
          if Taken(g, to, Up, me, sq) || Taken(g, to, Down, me, sq) ||
             Taken(g, to, Right, me, sq) || Taken(g, to, Left, me, sq)
          then Empty else At(g, sq)
  {
    var s1 := LineCapture(c, to, Up);
    var s2 := LineCapture(s1, to, Down);
    var s3 := LineCapture(s2, to, Right);
    CheckCapturesRuns(c, to);
    LineCaptureCells(c, to, Up);
    LineCaptureCells(s1, to, Down);
    LineCaptureCells(s2, to, Right);
    LineCaptureCells(s3, to, Left);
  }

  /** What check_captures does to the board: after the corner check, every square
      that lies in a flanked run next to the destination, in any of the four
      directions, is emptied, and every other square keeps its piece; the
      opponent's counter rises by the lengths of those runs and nothing else
      changes. The runs are those of the board the corner check leaves, as the
      four scans do not see each other's work. */
  lemma CheckCapturesCells(st: State, to: Square, toStr: string)
    requires IsBoard(st.board) && OnBoard(to)
    ensures var c := CornerCapture(st, toStr); var g := c.board; var me := st.active;
      var r := CheckCaptures(st, to, toStr);
      c.active == me && r.active == me && r.gameState == c.gameState &&
      Captured(r, me) == Captured(c, me) &&
      Captured(r, Opponent(me)) == Captured(c, Opponent(me)) +
        Gain(g, to, Up, me) + Gain(g, to, Down, me) + Gain(g, to, Right, me) + Gain(g, to, Left, me) &&
      forall sq | OnBoard(sq) ::
        At(r.board, sq) ==
          if Taken(g, to, Up, me, sq) || Taken(g, to, Down, me, sq) ||
             Taken(g, to, Right, me, sq) || Taken(g, to, Left, me, sq)
          then Empty else At(g, sq)
  {
    var c := CornerCapture(st, toStr);
    CornerCaptureEffect(st, toStr);
    CheckCapturesGain(c, to);
    CheckCapturesBoard(c, to);
  }

  /** The end of a successful make_move (lines 115-124): the win test by equality
      with 8 or 9, Black's count first, and the change of turn. */
  function Settle(st: State): State {
    var gameState :=
      if st.blackCaptured == 8 || st.blackCaptured == 9 then RedWon
      else if st.redCaptured == 8 || st.redCaptured == 9 then BlackWon
      else st.gameState;
    st.(gameState := gameState, active := if st.active == Black then Red else Black)
  }

  /** make_move: the answer and the fields afterwards. */
  function MakeMove(st: State, fromStr: string, toStr: string): (bool, State)
    requires IsBoard(st.board)
  {
    var fromIx, toIx := SquareIndex(fromStr), SquareIndex(toStr);
    if fromIx.None? || toIx.None? then
      (false, st)
    else if !ValidMove(st, fromIx.value, toIx.value) then
      (false, st)
    else
      (true, Settle(CheckCaptures(Move(st, fromIx.value, toIx.value), toIx.value, toStr)))
  }

  /** The captures keep the accounting of pieces and never lower a counter. */
  lemma CheckCapturesConserve(st: State, to: Square, toStr: string)
    requires IsBoard(st.board) && OnBoard(to) && Conserved(st)
    ensures var r := CheckCaptures(st, to, toStr);
      Conserved(r) && r.gameState == st.gameState && r.active == st.active &&
      r.blackCaptured >= st.blackCaptured && r.redCaptured >= st.redCaptured
  {
    var s0 := CornerCapture(st, toStr);
    CornerCaptureEffect(st, toStr);
    var s1 := LineCapture(s0, to, Up);
    LineCaptureConserves(s0, to, Up);
    var s2 := LineCapture(s1, to, Down);
    LineCaptureConserves(s1, to, Down);
    var s3 := LineCapture(s2, to, Right);
    LineCaptureConserves(s2, to, Right);
    LineCaptureConserves(s3, to, Left);
  }

  /** The win test of Settle, by equality with 8 or 9, gives the verdict of the
      counters once they account for every piece, and the turn passes. */
  lemma SettleDecides(st: State)
    requires IsBoard(st.board) && Conserved(st) && st.gameState == Unfinished
    ensures Valid(Settle(st))
    ensures Settle(st).active == Opponent(st.active)
    ensures Settle(st).(gameState := st.gameState, active := st.active) == st
  {
  }

  /** make_move keeps the invariant: pieces on the board plus pieces captured is
      9 for each colour, and the game state is the verdict of the counters. */
  lemma MakeMoveKeepsValid(st: State, fromStr: string, toStr: string)
    requires Valid(st)
    ensures Valid(MakeMove(st, fromStr, toStr).1)
  {
    var fromIx, toIx := SquareIndex(fromStr), SquareIndex(toStr);
    if fromIx.Some? && toIx.Some? && ValidMove(st, fromIx.value, toIx.value) {
      var f, t := fromIx.value, toIx.value;
      MoveEffect(st, f, t);
      ValidMoveLandsOnEmpty(st, f, t);
      var moved := Move(st, f, t);
      assert Conserved(moved);
      var captured := CheckCaptures(moved, t, toStr);
      CheckCapturesConserve(moved, t, toStr);
      SettleDecides(captured);
      assert MakeMove(st, fromStr, toStr).1 == Settle(captured);
    }
  }

  /** A rejected move changes nothing; a move naming a square outside the table,
      and any move once the game is won, is rejected. */
  lemma MakeMoveRejects(st: State, fromStr: string, toStr: string)
    requires IsBoard(st.board)
    ensures !MakeMove(st, fromStr, toStr).0 ==> MakeMove(st, fromStr, toStr).1 == st
    ensures SquareIndex(fromStr).None? || SquareIndex(toStr).None? ==> !MakeMove(st, fromStr, toStr).0
    ensures st.gameState != Unfinished ==> !MakeMove(st, fromStr, toStr).0
  {
  }

  /** An accepted move always passes the turn, even when it wins; the counters
      never go down; and the new game state is the verdict of the new counters. */
  lemma MakeMoveAccepted(st: State, fromStr: string, toStr: string)
    requires Valid(st) && MakeMove(st, fromStr, toStr).0
    ensures var r := MakeMove(st, fromStr, toStr).1;
      r.active == Opponent(st.active) &&
      r.blackCaptured >= st.blackCaptured && r.redCaptured >= st.redCaptured &&
      r.gameState == Verdict(r.blackCaptured, r.redCaptured)
  {
    var f, t := SquareIndex(fromStr).value, SquareIndex(toStr).value;
    MoveEffect(st, f, t);
    CheckCapturesConserve(Move(st, f, t), t, toStr);
    MakeMoveKeepsValid(st, fromStr, toStr);
  }

  /** Once one colour has lost 8 pieces, every later move is rejected. */
  lemma NoMoveAfterWin(st: State, fromStr: string, toStr: string)
    requires Valid(st) && (st.blackCaptured >= 8 || st.redCaptured >= 8)
    ensures MakeMove(st, fromStr, toStr) == (false, st)
  {
  }

  /** In a valid game the counters stay within 0..9, so the source's test for 8
      or 9 is the same as the test for at least 8. */
  lemma CountersBounded(st: State)
    requires Valid(st)
    ensures 0 <= st.blackCaptured <= 9 && 0 <= st.redCaptured <= 9
    ensures (st.blackCaptured == 8 || st.blackCaptured == 9) <==> st.blackCaptured >= 8
    ensures (st.redCaptured == 8 || st.redCaptured == 9) <==> st.redCaptured >= 8
  {
  }
}
