/** The board of the game (`TTTGrid` in main.py): a 3x3 grid of ints where 0 is
    an empty square, 1 is player 1's mark and 2 is player 2's mark, its eight
    winning lines, the end-of-game test and the emoji rendering. */
module TttGrid {

  datatype Option<+T> = None | Some(value: T)

  /** Number of rows and of columns (`n` in `win_indexes`). */
  const N: nat := 3

  /** The board as a value: three rows of three cells. */
  type Grid = g: seq<seq<int>> | |g| == 3 && forall r | 0 <= r < 3 :: |g[r]| == 3
    witness [[0, 0, 0], [0, 0, 0], [0, 0, 0]]

  /** A (row, column) pair. */
  type Coord = (int, int)

  predicate InRange(rc: Coord) {
    0 <= rc.0 < 3 && 0 <= rc.1 < 3
  }

  function Cell(g: Grid, rc: Coord): int
    requires InRange(rc)
  {
    g[rc.0][rc.1]
  }

  /** The grid a new `TTTGrid` starts with. */
  const EmptyGrid: Grid := [[0, 0, 0], [0, 0, 0], [0, 0, 0]]

  /** Two grids with the same cells are the same grid. */
  lemma SameCells(g: Grid, h: Grid)
    requires forall r, c | 0 <= r < 3 && 0 <= c < 3 :: g[r][c] == h[r][c]
    ensures g == h
  {
    assert g[0] == h[0] && g[1] == h[1] && g[2] == h[2];
  }

  /** Every cell holds 0, 1 or 2. */
  predicate Marks(g: Grid) {
    forall r, c | 0 <= r < 3 && 0 <= c < 3 :: 0 <= g[r][c] <= 2
  }

  /** No cell is empty. */
  predicate Full(g: Grid) {
    forall r, c | 0 <= r < 3 && 0 <= c < 3 :: g[r][c] != 0
  }

  // ---------------------------------------------------------------------------
  // Winning lines

  predicate LineInRange(line: seq<Coord>) {
    forall k | 0 <= k < |line| :: InRange(line[k])
  }

  /** `win_indexes`: the three rows, then the three columns, then the diagonal
      from the top left and the diagonal from the top right. */
  function WinIndexes(): (lines: seq<seq<Coord>>)
    ensures |lines| == 8
    ensures forall i | 0 <= i < |lines| :: |lines[i]| == 3 && LineInRange(lines[i])
  {
    [Row(0), Row(1), Row(2), Column(0), Column(1), Column(2), Diagonal(), AntiDiagonal()]
  }

  /** Row `r`, left to right: one of the lines of the first loop of
      `win_indexes`. */
  function Row(r: int): seq<Coord> {
    [(r, 0), (r, 1), (r, 2)]
  }

  /** Column `c`, top to bottom: one of the lines of the second loop of
      `win_indexes`. */
  function Column(c: int): seq<Coord> {
    [(0, c), (1, c), (2, c)]
  }

  /** The diagonal from the top left to the bottom right. */
  function Diagonal(): seq<Coord> {
    [(0, 0), (1, 1), (2, 2)]
  }

  /** The diagonal from the top right to the bottom left; its columns are
      counted down from `N - 1` as in `win_indexes`. */
  function AntiDiagonal(): seq<Coord> {
    [(0, N - 1), (1, N - 2), (2, N - 3)]
  }

  /** Player `p` holds every square of `line` (the `all(...)` test of
      `is_winner`). */
  predicate LineHeld(g: Grid, line: seq<Coord>, p: int)
    requires LineInRange(line)
  {
    forall k | 0 <= k < |line| :: Cell(g, line[k]) == p
  }

  /** The loop of `is_winner`: true at the first line that `p` holds. */
  function AnyLineHeld(g: Grid, lines: seq<seq<Coord>>, p: int): (r: bool)
    requires forall i | 0 <= i < |lines| :: LineInRange(lines[i])
    ensures r <==> exists i | 0 <= i < |lines| :: LineHeld(g, lines[i], p)
  {
    if lines == [] then false
    else if LineHeld(g, lines[0], p) then true
    else
      var r := AnyLineHeld(g, lines[1..], p);
      assert forall i | 1 <= i < |lines| :: lines[i] == lines[1..][i - 1];
      r
  }

  /** `is_winner`: whether player `p` holds one of the winning lines. */
  function IsWinner(g: Grid, p: int): bool
  {
    AnyLineHeld(g, WinIndexes(), p)
  }

  /** The winning condition of tic-tac-toe, written out independently of
      `WinIndexes`: a full row, a full column or a full diagonal of `p`. */
  ghost predicate HasLine(g: Grid, p: int) {
    (exists r | 0 <= r < 3 :: g[r][0] == p && g[r][1] == p && g[r][2] == p)
    || (exists c | 0 <= c < 3 :: g[0][c] == p && g[1][c] == p && g[2][c] == p)
    || (g[0][0] == p && g[1][1] == p && g[2][2] == p)
    || (g[0][2] == p && g[1][1] == p && g[2][0] == p)
  }

  /** `is_winner(p)` holds exactly when `p` owns some row, column or diagonal. */
  lemma IsWinnerIff(g: Grid, p: int)
    ensures IsWinner(g, p) <==> HasLine(g, p)
  {
    var lines := WinIndexes();
    if HasLine(g, p) {
      if r :| 0 <= r < 3 && g[r][0] == p && g[r][1] == p && g[r][2] == p {
        assert LineHeld(g, lines[r], p);
      } else if c :| 0 <= c < 3 && g[0][c] == p && g[1][c] == p && g[2][c] == p {
        assert LineHeld(g, lines[3 + c], p);
      } else if g[0][0] == p && g[1][1] == p && g[2][2] == p {
        assert LineHeld(g, lines[6], p);
      } else {
        assert LineHeld(g, lines[7], p);
      }
    }
    if IsWinner(g, p) {
      var i :| 0 <= i < 8 && LineHeld(g, lines[i], p);
      assert Cell(g, lines[i][0]) == p && Cell(g, lines[i][1]) == p && Cell(g, lines[i][2]) == p;
      if i < 3 {
        assert g[i][0] == p && g[i][1] == p && g[i][2] == p;
      } else if i < 6 {
        assert g[0][i - 3] == p && g[1][i - 3] == p && g[2][i - 3] == p;
      }
    }
  }

  // ---------------------------------------------------------------------------
  // End of the game

  /** The values of all rows, row after row (the list comprehension of
      `check_for_end`). */
  function Flatten(rows: seq<seq<int>>): seq<int>
  {
    if rows == [] then [] else rows[0] + Flatten(rows[1..])
  }

  /** The comprehension lists the grid's cells row by row. */
  lemma FlattenGrid(g: Grid)
    ensures Flatten(g) == g[0] + g[1] + g[2]
  {
    assert Flatten(g[2..]) == g[2] + Flatten(g[3..]);
    assert Flatten(g[1..]) == g[1] + Flatten(g[2..]);
  }

  /** `0 not in [...]` holds exactly when the grid is full. */
  lemma ZeroAbsentIffFull(g: Grid)
    ensures 0 !in Flatten(g) <==> Full(g)
  {
    FlattenGrid(g);
    var f := Flatten(g);
    if !Full(g) {
      var r, c :| 0 <= r < 3 && 0 <= c < 3 && g[r][c] == 0;
      assert f[3 * r + c] == 0;
    }
  }

  /** `check_for_end`: `Some(1)` or `Some(2)` for a win, `Some(3)` for a draw,
      `None` while the game goes on. */
  function CheckForEnd(g: Grid): (r: Option<int>)
    ensures r.Some? ==> 1 <= r.value <= 3
  {
    if IsWinner(g, 1) then Some(1)
    else if IsWinner(g, 2) then Some(2)
    else if 0 !in Flatten(g) then Some(3)
    else None
  }

  /** A win takes precedence over a full board, player 1's win over player 2's;
      a draw is a full board without a line, and the game goes on exactly
      while some cell is empty and nobody has a line. */
  lemma CheckForEndSpec(g: Grid)
    ensures CheckForEnd(g) == Some(1) <==> HasLine(g, 1)
    ensures CheckForEnd(g) == Some(2) <==> !HasLine(g, 1) && HasLine(g, 2)
    ensures CheckForEnd(g) == Some(3) <==> Full(g) && !HasLine(g, 1) && !HasLine(g, 2)
    ensures CheckForEnd(g) == None <==> !Full(g) && !HasLine(g, 1) && !HasLine(g, 2)
  {
    IsWinnerIff(g, 1);
    IsWinnerIff(g, 2);
    ZeroAbsentIffFull(g);
  }

  /** Once every cell is taken, the game is over. */
  lemma FullEndsGame(g: Grid)
    requires Full(g)
    ensures CheckForEnd(g).Some?
  {
    ZeroAbsentIffFull(g);
  }

  /** Number of occurrences of `v` in `s`. */
  function Count(s: seq<int>, v: int): nat {
    if s == [] then 0 else (if s[0] == v then 1 else 0) + Count(s[1..], v)
  }

  lemma {:induction false} CountConcat(a: seq<int>, b: seq<int>, v: int)
    ensures Count(a + b, v) == Count(a, v) + Count(b, v)
  {
    if a == [] {
      assert a + b == b;
    } else {
      assert (a + b)[0] == a[0];
      assert (a + b)[1..] == a[1..] + b;
      CountConcat(a[1..], b, v);
    }
  }

  lemma {:induction false} CountZero(s: seq<int>, v: int)
    ensures Count(s, v) == 0 <==> v !in s
  {
    if s != [] {
      CountZero(s[1..], v);
      assert s == [s[0]] + s[1..];
    }
  }

  /** Number of empty cells. */
  function Empties(g: Grid): nat {
    Count(Flatten(g), 0)
  }

  /** Writing a mark into an empty cell leaves one empty cell fewer. */
  lemma EmptiesAfterMark(g: Grid, r: int, c: int, m: int)
    requires 0 <= r < 3 && 0 <= c < 3 && g[r][c] == 0 && m != 0
    ensures Empties(g[r := g[r][c := m]]) == Empties(g) - 1
  {
    var g' := g[r := g[r][c := m]];
    FlattenGrid(g);
    FlattenGrid(g');
    var row, row' := g[r], g'[r];
    assert row == row[..c] + [0] + row[c + 1..];
    assert row' == row[..c] + [m] + row[c + 1..];
    CountConcat(row[..c] + [0], row[c + 1..], 0);
    CountConcat(row[..c], [0], 0);
    CountConcat(row[..c] + [m], row[c + 1..], 0);
    CountConcat(row[..c], [m], 0);
    CountConcat(g[0] + g[1], g[2], 0);
    CountConcat(g[0], g[1], 0);
    CountConcat(g'[0] + g'[1], g'[2], 0);
    CountConcat(g'[0], g'[1], 0);
  }

  /** A board has no empty cell exactly when it is full; the empty board has nine. */
  lemma EmptiesSpec(g: Grid)
    ensures Empties(g) == 0 <==> Full(g)
    ensures Empties(g) <= 9
    ensures Empties(EmptyGrid) == 9
  {
    FlattenGrid(g);
    CountZero(Flatten(g), 0);
    ZeroAbsentIffFull(g);
    CountBound(Flatten(g), 0);
    EmptyGridEmpties();
  }

  lemma EmptyGridEmpties()
    ensures Empties(EmptyGrid) == 9
  {
  }

  lemma {:induction false} CountBound(s: seq<int>, v: int)
    ensures Count(s, v) <= |s|
  {
    if s != [] {
      CountBound(s[1..], v);
    }
  }

  // ---------------------------------------------------------------------------
  // Rendering

  /** `grid_emojis`, in insertion order. */
  const GridEmojis: seq<(int, string)> :=
    [(0, ":white_large_square:"), (1, ":regional_indicator_x:"), (2, ":o2:")]

  /** The emoji a cell value is shown as. */
  function CellEmoji(v: int): string
    requires 0 <= v <= 2
  {
    GridEmojis[v].1
  }

  /** One row of the board: its three cells' emojis side by side. */
  function RowText(row: seq<int>): string
    requires |row| == 3 && forall c | 0 <= c < 3 :: 0 <= row[c] <= 2
  {
    CellEmoji(row[0]) + CellEmoji(row[1]) + CellEmoji(row[2])
  }

  /** The board as shown to the players: three rows separated by newlines. */
  function Render(g: Grid): string
    requires Marks(g)
  {
    RowText(g[0]) + "\n" + RowText(g[1]) + "\n" + RowText(g[2])
  }

  /** `str(v)` for a single decimal digit. */
  function Str(v: int): (s: string)
    requires 0 <= v <= 9
  {
    [('0' as int + v) as char]
  }

  /** A row as its three digits side by side (the inner join of
      `pretty_grid`). */
  function DigitRow(row: seq<int>): string
    requires |row| == 3 && forall c | 0 <= c < 3 :: 0 <= row[c] <= 2
  {
    Str(row[0]) + Str(row[1]) + Str(row[2])
  }

  /** The first line of `pretty_grid`: the rows of digits joined by newlines. */
  function DigitText(g: Grid): (s: string)
    requires Marks(g)
    ensures |s| == 11 && s[3] == '\n' && s[7] == '\n'
    ensures forall r, c | 0 <= r < 3 && 0 <= c < 3 :: s[4 * r + c] == Str(g[r][c])[0]
  {
    DigitRow(g[0]) + "\n" + DigitRow(g[1]) + "\n" + DigitRow(g[2])
  }

  /** `s.replace(pat, repl)` for a one-character pattern: every occurrence of
      that character is replaced by `repl`. */
  function Replace(s: string, pat: string, repl: string): (r: string)
    requires |pat| == 1
    ensures |repl| == 1 ==> |r| == |s|
    ensures pat[0] !in s ==> r == s
  {
    if s == [] then []
    else (if s[0] == pat[0] then repl else [s[0]]) + Replace(s[1..], pat, repl)
  }

  lemma {:induction false} ReplaceConcat(a: string, b: string, pat: string, repl: string)
    requires |pat| == 1
    ensures Replace(a + b, pat, repl) == Replace(a, pat, repl) + Replace(b, pat, repl)
  {
    if a != [] {
      assert (a + b)[0] == a[0];
      assert (a + b)[1..] == a[1..] + b;
      ReplaceConcat(a[1..], b, pat, repl);
      var h := if a[0] == pat[0] then repl else [a[0]];
      assert Replace(a + b, pat, repl) == h + Replace(a[1..] + b, pat, repl);
    } else {
      assert a + b == b;
    }
  }

  lemma ReplaceChar(ch: char, pat: string, repl: string)
    requires |pat| == 1
    ensures Replace([ch], pat, repl) == if ch == pat[0] then repl else [ch]
  {
  }

  /** The text after the first `k` passes of the replacement loop of `pretty_grid`. */
  function Substituted(s: string, k: nat): string
    requires k <= |GridEmojis|
  {
    if k == 0 then s
    else Replace(Substituted(s, k - 1), Str(GridEmojis[k - 1].0), GridEmojis[k - 1].1)
  }

  lemma {:induction false} SubstitutedConcat(a: string, b: string, k: nat)
    requires k <= |GridEmojis|
    ensures Substituted(a + b, k) == Substituted(a, k) + Substituted(b, k)
  {
    if k > 0 {
      SubstitutedConcat(a, b, k - 1);
      ReplaceConcat(Substituted(a, k - 1), Substituted(b, k - 1), Str(GridEmojis[k - 1].0), GridEmojis[k - 1].1);
    }
  }

  /** The three passes turn a digit into its cell's emoji: this relies on
      the passes running in the order 0, 1, 2 and on the emojis for 0 and 1
      containing no digit, so no later pass rewrites an earlier pass's output. */
  lemma SubstitutedDigit(v: int)
    requires 0 <= v <= 2
    ensures Substituted(Str(v), 3) == CellEmoji(v)
  {
    if v == 0 {
      SubstitutedZero();
    } else if v == 1 {
      SubstitutedOne();
    } else {
      SubstitutedTwo();
    }
  }

  lemma SubstitutedZero()
    ensures Substituted("0", 3) == GridEmojis[0].1
  {
    var e0 := GridEmojis[0].1;
    ReplaceChar('0', "0", e0);
    assert '1' !in e0 && '2' !in e0;
  }

  lemma SubstitutedOne()
    ensures Substituted("1", 3) == GridEmojis[1].1
  {
    var e1 := GridEmojis[1].1;
    ReplaceChar('1', "0", GridEmojis[0].1);
    ReplaceChar('1', "1", e1);
    assert '2' !in e1;
  }

  lemma SubstitutedTwo()
    ensures Substituted("2", 3) == GridEmojis[2].1
  {
    ReplaceChar('2', "0", GridEmojis[0].1);
    ReplaceChar('2', "1", GridEmojis[1].1);
    ReplaceChar('2', "2", GridEmojis[2].1);
  }

  lemma SubstitutedNewline()
    ensures Substituted("\n", 3) == "\n"
  {
    ReplaceChar('\n', "0", GridEmojis[0].1);
    ReplaceChar('\n', "1", GridEmojis[1].1);
    ReplaceChar('\n', "2", GridEmojis[2].1);
  }

  lemma SubstitutedRow(row: seq<int>)
    requires |row| == 3 && forall c | 0 <= c < 3 :: 0 <= row[c] <= 2
    ensures Substituted(DigitRow(row), 3) == RowText(row)
  {
    SubstitutedConcat(Str(row[0]) + Str(row[1]), Str(row[2]), 3);
    SubstitutedConcat(Str(row[0]), Str(row[1]), 3);
    SubstitutedDigit(row[0]);
    SubstitutedDigit(row[1]);
    SubstitutedDigit(row[2]);
  }

  /** The sequential replacement of `pretty_grid` gives the per-cell rendering. */
  lemma SubstitutedGrid(g: Grid)
    requires Marks(g)
    ensures Substituted(DigitText(g), 3) == Render(g)
  {
    var a, b, c := DigitRow(g[0]), DigitRow(g[1]), DigitRow(g[2]);
    SubstitutedConcat(a + "\n" + b + "\n", c, 3);
    SubstitutedConcat(a + "\n" + b, "\n", 3);
    SubstitutedConcat(a + "\n", b, 3);
    SubstitutedConcat(a, "\n", 3);
    SubstitutedNewline();
    SubstitutedRow(g[0]);
    SubstitutedRow(g[1]);
    SubstitutedRow(g[2]);
  }

  // ---------------------------------------------------------------------------
  // The board object

  /** `TTTGrid`: the board object whose cells the game writes in place. */
  class TTTGrid {
    const cells: array2<int>

    ghost predicate Valid()
      reads this, cells
    {
      cells.Length0 == 3 && cells.Length1 == 3
      && forall r, c | 0 <= r < 3 && 0 <= c < 3 :: 0 <= cells[r, c] <= 2
    }

    /** The current contents of the board, as a value. */
    function Snapshot(): (g: Grid)
      reads this, cells
      requires Valid()
      ensures Marks(g)
      ensures forall r, c | 0 <= r < 3 && 0 <= c < 3 :: g[r][c] == cells[r, c]
    {
      [[cells[0, 0], cells[0, 1], cells[0, 2]],
       [cells[1, 0], cells[1, 1], cells[1, 2]],
       [cells[2, 0], cells[2, 1], cells[2, 2]]]
    }

    constructor ()
      ensures Valid() && fresh(cells)
      ensures Snapshot() == EmptyGrid
    {
      cells := new int[3, 3]((r, c) => 0);
    }

    /** Writes `mark` into the square at `row`, `col`; the rest of the board
        stays as it was. */
    method Place(row: int, col: int, mark: int)
      requires Valid() && InRange((row, col)) && 0 <= mark <= 2
      modifies cells
      ensures Valid()
      ensures Snapshot() == old(Snapshot())[row := old(Snapshot())[row][col := mark]]
    {
      ghost var g := Snapshot();
      cells[row, col] := mark;
      SameCells(Snapshot(), g[row := g[row][col := mark]]);
    }

    /** `pretty_grid`: the digits of the board, then one replacement pass per
        entry of `GridEmojis`, in order. */
    method PrettyGrid() returns (s: string)
      requires Valid()
      ensures s == Render(Snapshot())
    {
      var g := Snapshot();
      s := DigitText(g);
      ghost var digits := s;
      for k := 0 to |GridEmojis|
        invariant s == Substituted(digits, k)
      {
        var (value, emoji) := GridEmojis[k];
        s := Replace(s, Str(value), emoji);
      }
      SubstitutedGrid(g);
    }
  }
}
