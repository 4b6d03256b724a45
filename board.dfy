/** The board of a Hasami Shogi game: the two colours, the content of a square,
    the 9x9 playing grid, the table from algebraic square names to grid indices
    and the static corner-capture table. */
module Board {

  datatype Option<T> = None | Some(value: T)

  /** The two sides; Black moves first. */
  datatype Color = Black | Red

  function Opponent(c: Color): (o: Color)
    ensures o != c
  {
    if c == Black then Red else Black
  }

  /** The content of one playing square: '.', 'B' or 'R' in the source's board list. */
  datatype Cell = Empty | Piece(color: Color)

  /** A (row, column) pair with the source's 1-based indices: rows 'a'..'i' are 1..9,
      columns '1'..'9' are 1..9. */
  type Square = (int, int)

  predicate OnBoard(sq: Square) {
    1 <= sq.0 <= 9 && 1 <= sq.1 <= 9
  }

  /** The playing area, row by row. The source keeps it inside a 10x10 list whose
      row 0 and column 0 hold labels; those label cells are not modelled. */
  type Grid = seq<seq<Cell>>

  predicate IsBoard(g: Grid) {
    |g| == 9 && forall i | 0 <= i < 9 :: |g[i]| == 9
  }

  /** The occupant of a square, `self._board[row][col]`. */
  function At(g: Grid, sq: Square): Cell
    requires IsBoard(g) && OnBoard(sq)
  {
    g[sq.0 - 1][sq.1 - 1]
  }

  /** The board after the in-place write `self._board[row][col] = v`. */
  function Put(g: Grid, sq: Square, v: Cell): (h: Grid)
    requires IsBoard(g) && OnBoard(sq)
    ensures IsBoard(h)
    ensures At(h, sq) == v
    ensures forall p | OnBoard(p) && p != sq :: At(h, p) == At(g, p)
  {
    g[sq.0 - 1 := g[sq.0 - 1][sq.1 - 1 := v]]
  }

  // ---------------------------------------------------------------------------
  // Square names

  /** The algebraic name of a square: its row letter followed by its column digit. */
  function SquareName(sq: Square): (s: string)
    requires OnBoard(sq)
    ensures |s| == 2 && 'a' <= s[0] <= 'i' && '1' <= s[1] <= '9'
  {
    [('a' as int + sq.0 - 1) as char, ('0' as int + sq.1) as char]
  }

  /** The lookup `self._board_moves.get(s)`: the table has exactly the 81 keys
      "a1" .. "i9", a row letter followed by a column digit, and any other
      string yields None. */
  function SquareIndex(s: string): (r: Option<Square>)
    ensures r.Some? <==> |s| == 2 && 'a' <= s[0] <= 'i' && '1' <= s[1] <= '9'
    ensures r.Some? ==> OnBoard(r.value) && SquareName(r.value) == s
  {
    if |s| == 2 && 'a' <= s[0] <= 'i' && '1' <= s[1] <= '9' then
      Some((s[0] as int - 'a' as int + 1, s[1] as int - '0' as int))
    else
      None
  }

  /** Every square of the board is in the table, under its own name: together with
      the second ensures of SquareIndex, the table is a bijection between its 81
      keys and the 81 playing squares. */
  lemma SquareIndexOfName(sq: Square)
    requires OnBoard(sq)
    ensures SquareIndex(SquareName(sq)) == Some(sq)
  {
  }

  /** Two different names never resolve to the same square. */
  lemma SquareIndexInjective(s: string, t: string)
    requires SquareIndex(s).Some? && SquareIndex(s) == SquareIndex(t)
    ensures s == t
  {
  }

  // ---------------------------------------------------------------------------
  // Corner-capture table

  /** `self._corner_captures`: for each of the 8 squares next to a corner, the
      other square next to that corner and the corner itself. */
  const CornerCaptures: map<string, (string, string)> :=
    map["b1" := ("a2", "a1"), "a2" := ("b1", "a1"), "b9" := ("a8", "a9"), "a8" := ("b9", "a9"),
        "h1" := ("i2", "i1"), "i2" := ("h1", "i1"), "h9" := ("i8", "i9"), "i8" := ("h9", "i9")]

  predicate IsCorner(sq: Square) {
    (sq.0 == 1 || sq.0 == 9) && (sq.1 == 1 || sq.1 == 9)
  }

  predicate Orthogonal(p: Square, q: Square) {
    (p.0 == q.0 && (p.1 - q.1 == 1 || q.1 - p.1 == 1)) ||
    (p.1 == q.1 && (p.0 - q.0 == 1 || q.0 - p.0 == 1))
  }

  /** Each entry names real squares: an anchor, its partner anchor and the corner
      both of them touch orthogonally. */
  lemma CornerEntry(key: string)
    requires key in CornerCaptures
    ensures SquareIndex(key).Some?
    ensures SquareIndex(CornerCaptures[key].0).Some? && SquareIndex(CornerCaptures[key].1).Some?
    ensures IsCorner(SquareIndex(CornerCaptures[key].1).value)
    ensures Orthogonal(SquareIndex(key).value, SquareIndex(CornerCaptures[key].1).value)
    ensures Orthogonal(SquareIndex(CornerCaptures[key].0).value, SquareIndex(CornerCaptures[key].1).value)
  {
  }

  /** The partner's own entry points back at the anchor with the same corner. */
  lemma CornerPartner(key: string)
    requires key in CornerCaptures
    ensures key != CornerCaptures[key].0
    ensures CornerCaptures[key].0 in CornerCaptures
    ensures CornerCaptures[CornerCaptures[key].0] == (key, CornerCaptures[key].1)
  {
  }

  // ---------------------------------------------------------------------------
  // Pieces on the board

  /** The number of c pieces in a row of cells. */
  function RowCount(row: seq<Cell>, c: Color): nat {
    if |row| == 0 then 0 else (if row[0] == Piece(c) then 1 else 0) + RowCount(row[1..], c)
  }

  /** The number of c pieces on the board, row by row. */
  function Count(g: Grid, c: Color): nat {
    if |g| == 0 then 0 else RowCount(g[0], c) + Count(g[1..], c)
  }

  /** The count of a row is at most its length, and it reaches the length
      exactly when every cell holds a c piece. */
  lemma {:induction false} RowCountBounds(row: seq<Cell>, c: Color)
    ensures RowCount(row, c) <= |row|
    ensures RowCount(row, c) == |row| <==> forall i | 0 <= i < |row| :: row[i] == Piece(c)
    ensures RowCount(row, c) == 0 <==> forall i | 0 <= i < |row| :: row[i] != Piece(c)
  {
    if |row| > 0 {
      RowCountBounds(row[1..], c);
      assert forall i | 1 <= i < |row| :: row[i] == row[1..][i - 1];
    }
  }

  /** One write in a row changes its count by what it removes and what it adds. */
  lemma {:induction false} RowCountUpdate(row: seq<Cell>, j: int, v: Cell, c: Color)
    requires 0 <= j < |row|
    ensures RowCount(row[j := v], c) ==
            RowCount(row, c) - (if row[j] == Piece(c) then 1 else 0) + (if v == Piece(c) then 1 else 0)
  {
    if j == 0 {
      assert row[j := v][1..] == row[1..];
    } else {
      assert row[j := v][1..] == row[1..][j - 1 := v];
      RowCountUpdate(row[1..], j - 1, v, c);
    }
  }

  /** Replacing one row changes the board's count by the difference of the rows' counts. */
  lemma {:induction false} CountUpdate(g: Grid, i: int, row: seq<Cell>, c: Color)
    requires 0 <= i < |g|
    ensures Count(g[i := row], c) == Count(g, c) - RowCount(g[i], c) + RowCount(row, c)
  {
    if i == 0 {
      assert g[i := row][1..] == g[1..];
    } else {
      assert g[i := row][1..] == g[1..][i - 1 := row];
      CountUpdate(g[1..], i - 1, row, c);
    }
  }

  /** One write changes the number of c-pieces by what it removes and what it adds. */
  lemma PutCount(g: Grid, sq: Square, v: Cell, c: Color)
    requires IsBoard(g) && OnBoard(sq)
    ensures Count(Put(g, sq, v), c) ==
            Count(g, c) - (if At(g, sq) == Piece(c) then 1 else 0) + (if v == Piece(c) then 1 else 0)
  {
    var i, j := sq.0 - 1, sq.1 - 1;
    RowCountUpdate(g[i], j, v, c);
    CountUpdate(g, i, g[i][j := v], c);
  }
}
