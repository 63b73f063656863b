/** The turn logic of `TTTGame` in main.py: the table from reaction emojis to
    squares, the acceptance test `check`, the move made by `do_turn` and the
    loop of `start`, with the chat platform replaced by a sequence of reaction
    events. */
module TttGame {
  import opened TttGrid

  /** A chat member, known by identity only. */
  type User = int

  /** A reaction added by a user: the emoji and who added it. */
  datatype Event = Event(emoji: string, user: User)

  /** `reaction_emojis`: one control emoji per square: eight arrows (top left,
      top, top right, left, right, bottom left, bottom, bottom right) and a
      centre button for the middle square. */
  const ReactionEmojis: map<string, Coord> := map[
    "\U{2196}" := (0, 0),
    "\U{2B06}" := (0, 1),
    "\U{2197}" := (0, 2),
    "\U{2B05}" := (1, 0),
    "\U{23FA}" := (1, 1),
    "\U{27A1}" := (1, 2),
    "\U{2199}" := (2, 0),
    "\U{2B07}" := (2, 1),
    "\U{2198}" := (2, 2)
  ]

  /** The same table keyed by the single code point each emoji consists of.
      Every key of `ReactionEmojis` is a one-character string, so this is the
      same lookup (`SquareOfTable`); looking a character up is far cheaper for
      the verifier than comparing strings, which every proof about a run of
      the game would otherwise have to do. */
  const Squares: map<char, Coord> := map[
    '\U{2196}' := (0, 0), '\U{2B06}' := (0, 1), '\U{2197}' := (0, 2),
    '\U{2B05}' := (1, 0), '\U{23FA}' := (1, 1), '\U{27A1}' := (1, 2),
    '\U{2199}' := (2, 0), '\U{2B07}' := (2, 1), '\U{2198}' := (2, 2)
  ]

  /** The square an emoji stands for, if any: the lookup `check` does with
      `reaction_emojis.get`. */
  function SquareOf(emoji: string): (rc: Option<Coord>)
    ensures rc.Some? ==> InRange(rc.value)
  {
    if |emoji| == 1 && emoji[0] in Squares then Some(Squares[emoji[0]]) else None
  }

  /** Looking an emoji up by its code point agrees with `reaction_emojis`. */
  lemma SquareOfTable(emoji: string)
    ensures SquareOf(emoji).Some? <==> emoji in ReactionEmojis
    ensures emoji in ReactionEmojis ==> SquareOf(emoji) == Some(ReactionEmojis[emoji])
  {
    if |emoji| == 1 {
      assert emoji == [emoji[0]];
    }
  }

  /** The table's keys listed in the order of their squares, row by row; used
      to state that the table is a bijection onto the board. */
  const Controls: seq<string> := ["\U{2196}", "\U{2B06}", "\U{2197}", "\U{2B05}", "\U{23FA}", "\U{27A1}", "\U{2199}", "\U{2B07}", "\U{2198}"]

  /** The nine control emojis are distinct. */
  lemma ControlsDistinct()
    ensures |Controls| == 9 && forall i, j | 0 <= i < j < 9 :: Controls[i] != Controls[j]
  {
  }

  /** The table's emojis are exactly the nine control emojis. */
  lemma ControlsAreKeys()
    ensures forall emoji :: emoji in ReactionEmojis <==> emoji in Controls
  {
  }

  /** The table maps the control emojis onto the squares in row-major
      order: square (r, c) belongs to the (3r + c)-th control emoji. */
  lemma ControlSquares()
    ensures forall r, c | 0 <= r < 3 && 0 <= c < 3 :: SquareOf(Controls[3 * r + c]) == Some((r, c))
  {
    forall r, c | 0 <= r < 3 && 0 <= c < 3 ensures SquareOf(Controls[3 * r + c]) == Some((r, c)) {
      if r == 0 {
        assert Controls[c] == Controls[..3][c];
      } else if r == 1 {
        assert Controls[3 + c] == Controls[3..6][c];
      } else {
        assert Controls[6 + c] == Controls[6..][c];
      }
    }
  }

  /** Different emojis never lead to the same square: the table is a
      bijection between its nine emojis and the nine squares. */
  lemma SquareOfInjective(a: string, b: string)
    requires SquareOf(a).Some? && SquareOf(a) == SquareOf(b)
    ensures a == b
  {
  }

  // ---------------------------------------------------------------------------
  // The game as a value

  /** The state of a game: the two players, whose turn it is and the board. */
  datatype GameState = GameState(player1: User, player2: User, current: User, grid: Grid)

  /** A new game: player 1 (the challenger) moves first on an empty board. */
  function Initial(player1: User, player2: User): (st: GameState)
    ensures st.player1 == player1 && st.player2 == player2 && st.current == player1
    ensures forall r, c | 0 <= r < 3 && 0 <= c < 3 :: st.grid[r][c] == 0
  {
    GameState(player1, player2, player1, EmptyGrid)
  }

  /** The mark the current player writes: 1 for player 1, 2 otherwise. */
  function Mark(st: GameState): int {
    if st.current == st.player1 then 1 else 2
  }

  /** Whose turn it is after the current player has moved. */
  function NextPlayer(st: GameState): User {
    if st.current == st.player2 then st.player1 else st.player2
  }

  /** `check`: the emoji is in the table, the user is the current player and
      the square is empty. */
  predicate Accepts(st: GameState, e: Event)
  {
    match SquareOf(e.emoji)
    case None => false
    case Some(rc) => e.user == st.current && Cell(st.grid, rc) == 0
  }

  /** `check` in the terms of `reaction_emojis`: the emoji is one of its
      keys, the user is the current player and the square is empty. */
  lemma AcceptsIff(st: GameState, e: Event)
    ensures Accepts(st, e) <==>
      e.emoji in ReactionEmojis && e.user == st.current && Cell(st.grid, ReactionEmojis[e.emoji]) == 0
  {
    SquareOfTable(e.emoji);
  }

  /** The move of `do_turn` for an event `check` accepted: the current
      player's mark goes into the chosen square, which was empty, no other
      square changes, and the turn passes to the other player. */
  function Play(st: GameState, e: Event): (st': GameState)
    requires Accepts(st, e)
    ensures var rc := SquareOf(e.emoji).value;
      Cell(st.grid, rc) == 0 && Cell(st'.grid, rc) == Mark(st) != 0
      && (forall r, c | 0 <= r < 3 && 0 <= c < 3 && (r, c) != rc :: st'.grid[r][c] == st.grid[r][c])
    ensures st'.current == NextPlayer(st)
    ensures st'.player1 == st.player1 && st'.player2 == st.player2
  {
    var rc := SquareOf(e.emoji).value;
    st.(grid := st.grid[rc.0 := st.grid[rc.0][rc.1 := Mark(st)]], current := NextPlayer(st))
  }

  /** One event: an accepted event is played, any other changes nothing. */
  function Step(st: GameState, e: Event): GameState
  {
    if Accepts(st, e) then Play(st, e) else st
  }

  predicate Ended(st: GameState) {
    CheckForEnd(st.grid).Some?
  }

  /** The loop of `start` over a stream of events: events are handled in
      order until `check_for_end` reports an end; later events are ignored. */
  function Run(st: GameState, events: seq<Event>): GameState
    decreases |events|
  {
    if events == [] || Ended(st) then st
    else Run(Step(st, events[0]), events[1..])
  }

  /** How many of the events `Run` plays. */
  function Moves(st: GameState, events: seq<Event>): nat
    decreases |events|
  {
    if events == [] || Ended(st) then 0
    else (if Accepts(st, events[0]) then 1 else 0) + Moves(Step(st, events[0]), events[1..])
  }

  /** The players take turns: with two different players, every played move
      passes the turn to the other one. */
  predicate TurnOk(st: GameState) {
    st.player1 != st.player2 && (st.current == st.player1 || st.current == st.player2)
  }

  /** The player whose turn it is `n` moves after `st`. */
  function After(st: GameState, n: nat): User {
    if n % 2 == 0 then st.current else NextPlayer(st)
  }

  /** One event: a played event fills exactly one empty square and passes
      the turn, a rejected one changes nothing; marked squares keep their mark. */
  lemma StepProgress(st: GameState, e: Event)
    requires TurnOk(st)
    ensures !Accepts(st, e) ==> Step(st, e) == st
    ensures var st' := Step(st, e);
      var n := if Accepts(st, e) then 1 else 0;
      TurnOk(st') && st'.player1 == st.player1 && st'.player2 == st.player2
      && Empties(st'.grid) + n == Empties(st.grid)
      && st'.current == After(st, n)
      && forall r, c | 0 <= r < 3 && 0 <= c < 3 && st.grid[r][c] != 0 :: st'.grid[r][c] == st.grid[r][c]
  {
    if Accepts(st, e) {
      var rc := SquareOf(e.emoji).value;
      EmptiesAfterMark(st.grid, rc.0, rc.1, Mark(st));
    }
  }

  /** Every played event fills exactly one empty square and passes the turn,
      and squares once marked keep their mark. */
  lemma {:induction false} RunProgress(st: GameState, events: seq<Event>)
    requires TurnOk(st)
    ensures var st' := Run(st, events);
      st'.player1 == st.player1 && st'.player2 == st.player2
      && Empties(st'.grid) + Moves(st, events) == Empties(st.grid)
      && st'.current == After(st, Moves(st, events))
      && forall r, c | 0 <= r < 3 && 0 <= c < 3 && st.grid[r][c] != 0 :: st'.grid[r][c] == st.grid[r][c]
    decreases |events|
  {
    if events != [] && !Ended(st) {
      StepProgress(st, events[0]);
      RunProgress(Step(st, events[0]), events[1..]);
    }
  }

  /** A square, once taken, stays taken: replaying the emoji of a played
      move is rejected whatever happened in between. */
  lemma ConsumedEmojiRejected(st: GameState, e: Event, events: seq<Event>, again: Event)
    requires TurnOk(st) && Accepts(st, e) && again.emoji == e.emoji
    ensures !Accepts(Run(Play(st, e), events), again)
  {
    StepProgress(st, e);
    RunProgress(Play(st, e), events);
  }

  /** From a new game: after `n` played moves, exactly `n` squares are taken,
      it is player 1's turn exactly when `n` is even, and at most nine moves
      are ever played. */
  lemma TurnsAlternate(player1: User, player2: User, events: seq<Event>)
    requires player1 != player2
    ensures var n := Moves(Initial(player1, player2), events);
      var st' := Run(Initial(player1, player2), events);
      Empties(st'.grid) == 9 - n
      && (st'.current == player1 <==> n % 2 == 0)
      && (st'.current == player2 <==> n % 2 == 1)
      && n <= 9
  {
    EmptyGridEmpties();
    Alternation(Initial(player1, player2), events);
  }

  /** Whoever moves first, the turn is theirs again exactly after an even
      number of moves, and each move takes one empty square. */
  lemma Alternation(st: GameState, events: seq<Event>)
    requires TurnOk(st)
    ensures var n := Moves(st, events);
      var st' := Run(st, events);
      Empties(st'.grid) + n == Empties(st.grid)
      && (st'.current == st.current <==> n % 2 == 0)
      && (st'.current == NextPlayer(st) <==> n % 2 == 1)
  {
    RunProgress(st, events);
  }

  /** `start` stops once the game has ended, so events after that are
      ignored; and a game in which no square is left empty has ended. */
  lemma RunStops(st: GameState, events: seq<Event>)
    ensures Ended(st) ==> Run(st, events) == st
    ensures Empties(st.grid) == 0 ==> Ended(st)
  {
    EmptiesSpec(st.grid);
    if Full(st.grid) {
      FullEndsGame(st.grid);
    }
  }

  /** Events that `check` rejects are skipped: running from the first event
      it accepts gives the same game. */
  lemma {:induction false} RunSkips(st: GameState, events: seq<Event>, from: nat, k: nat)
    requires !Ended(st) && from <= k <= |events|
    requires forall j | from <= j < k :: !Accepts(st, events[j])
    ensures Run(st, events[from..]) == Run(st, events[k..])
    decreases k - from
  {
    if from < k {
      assert events[from..][1..] == events[from + 1..];
      RunSkips(st, events, from + 1, k);
    }
  }

  /** The event `bot.wait_for` returns: the first one from `from` on that
      `check` accepts, or `|events|` when there is none (the wait times out). */
  function FirstAccepted(st: GameState, events: seq<Event>, from: nat): (k: nat)
    requires from <= |events|
    ensures from <= k <= |events|
    ensures forall j | from <= j < k :: !Accepts(st, events[j])
    ensures k < |events| ==> Accepts(st, events[k])
    decreases |events| - from
  {
    if from == |events| || Accepts(st, events[from]) then from
    else FirstAccepted(st, events, from + 1)
  }

  /** `do_turn` on values: the game after the turn and the position of the
      next event to wait for. */
  function TakeTurn(st: GameState, events: seq<Event>, from: nat): (t: (GameState, nat))
    requires from <= |events|
    ensures from <= t.1 <= |events|
    ensures t.1 == |events| || (t.1 > from && Accepts(st, events[t.1 - 1]))
  {
    var k := FirstAccepted(st, events, from);
    if k == |events| then (st, k) else (Play(st, events[k]), k + 1)
  }

  /** One turn of `start`: the rejected events before the first accepted one
      are skipped and that one is played; without an accepted event the game
      stays as it is. */
  lemma RunTurn(st: GameState, events: seq<Event>, from: nat)
    requires !Ended(st) && from <= |events|
    ensures var (st', next) := TakeTurn(st, events, from);
      next <= |events| && Run(st, events[from..]) == Run(st', events[next..])
  {
    var k := FirstAccepted(st, events, from);
    if k == |events| {
      assert TakeTurn(st, events, from) == (st, k);
      RunTimesOut(st, events, from);
      assert events[k..] == [];
    } else {
      assert TakeTurn(st, events, from) == (Play(st, events[k]), k + 1);
      RunPlaysFirst(st, events, from, k);
    }
  }

  /** Without an accepted event, the run keeps the game as it is. */
  lemma RunTimesOut(st: GameState, events: seq<Event>, from: nat)
    requires !Ended(st) && from <= |events| && FirstAccepted(st, events, from) == |events|
    ensures Run(st, events[from..]) == st
  {
    RunSkips(st, events, from, |events|);
    RunStopped(st, events[|events|..]);
  }

  /** The first accepted event is played, and the run goes on after it. */
  lemma RunPlaysFirst(st: GameState, events: seq<Event>, from: nat, k: nat)
    requires !Ended(st) && from <= k < |events| && k == FirstAccepted(st, events, from)
    ensures Run(st, events[from..]) == Run(Play(st, events[k]), events[k + 1..])
  {
    RunSkips(st, events, from, k);
    RunPlays(st, events, k);
  }

  /** A run over no events, or from a game that has ended, changes nothing. */
  lemma RunStopped(st: GameState, events: seq<Event>)
    requires events == [] || Ended(st)
    ensures Run(st, events) == st
  {
  }

  /** An accepted event is played, and the run goes on from the next event. */
  lemma RunPlays(st: GameState, events: seq<Event>, k: nat)
    requires !Ended(st) && k < |events| && Accepts(st, events[k])
    ensures Run(st, events[k..]) == Run(Play(st, events[k]), events[k + 1..])
  {
  }

  /** The caption chosen by `make_embed`: whose turn it is, who has won, or
      that the game is a draw (the mentions themselves are not modelled). */
  datatype Caption = Turn(player: User) | Won(player: User) | Draw

  function CaptionOf(st: GameState): (c: Caption)
    ensures c.Turn? ==> c.player == st.current
    ensures c.Won? ==> c.player == st.player1 || c.player == st.player2
  {
    match CheckForEnd(st.grid)
    case Some(1) => Won(st.player1)
    case Some(2) => Won(st.player2)
    case Some(3) => Draw
    case _ => Turn(st.current)
  }

  /** The caption names the player who has a line (player 1 first), a draw
      only on a full board without a line, and otherwise the player to move. */
  lemma CaptionSpec(st: GameState)
    ensures CaptionOf(st) == Won(st.player1) <== HasLine(st.grid, 1)
    ensures CaptionOf(st).Won? <==> HasLine(st.grid, 1) || HasLine(st.grid, 2)
    ensures !HasLine(st.grid, 1) && HasLine(st.grid, 2) ==> CaptionOf(st) == Won(st.player2)
    ensures CaptionOf(st) == Draw <==> Full(st.grid) && !HasLine(st.grid, 1) && !HasLine(st.grid, 2)
    ensures CaptionOf(st) == Turn(st.current) <==> !Full(st.grid) && !HasLine(st.grid, 1) && !HasLine(st.grid, 2)
  {
    CheckForEndSpec(st.grid);
  }

  // ---------------------------------------------------------------------------
  // The objects

  /** `TTTGame`: the two players, whose turn it is and the board object. */
  class TTTGame {
    const player1: User
    const player2: User
    var currentPlayer: User
    const grid: TTTGrid

    ghost predicate Valid()
      reads this, grid, grid.cells
    {
      grid.Valid() && (currentPlayer == player1 || currentPlayer == player2)
    }

    /** The game as a value. */
    ghost function State(): GameState
      reads this, grid, grid.cells
      requires Valid()
    {
      GameState(player1, player2, currentPlayer, grid.Snapshot())
    }

    constructor (player1: User, player2: User)
      ensures Valid() && fresh(grid) && fresh(grid.cells)
      ensures State() == Initial(player1, player2)
    {
      this.player1 := player1;
      this.player2 := player2;
      currentPlayer := player1;
      grid := new TTTGrid();
    }

    /** `check`: whether the event is a move the current player may make now. */
    method Check(e: Event) returns (ok: bool)
      requires Valid()
      ensures ok == Accepts(State(), e)
    {
      var index := SquareOf(e.emoji);
      if index.None? {
        return false;
      }
      var (row, col) := index.value;
      ok := e.user == currentPlayer && grid.cells[row, col] == 0;
    }

    /** `bot.wait_for(..., check=self.check)`: the position of the first
      event from `from` on that `check` accepts, or `|events|` when the events
      run out first (the wait times out). */
    method WaitFor(events: seq<Event>, from: nat) returns (k: nat)
      requires Valid() && from <= |events|
      ensures k == FirstAccepted(State(), events, from)
    {
      k := from;
      while k < |events|
        invariant from <= k <= |events|
        invariant FirstAccepted(State(), events, from) == FirstAccepted(State(), events, k)
      {
        var ok := Check(events[k]);
        if ok {
          return;
        }
        k := k + 1;
      }
    }

    /** `do_turn`: wait for an accepted event, write the current player's mark
        into its square of the board object and pass the turn; on a timeout
        nothing changes. */
    method DoTurn(events: seq<Event>, from: nat) returns (next: nat, timedOut: bool)
      requires Valid() && from <= |events|
      modifies this, grid.cells
      ensures Valid()
      ensures timedOut <==> FirstAccepted(old(State()), events, from) == |events|
      ensures (State(), next) == TakeTurn(old(State()), events, from)
    {
      var k := WaitFor(events, from);
      if k == |events| {
        return k, true;
      }
      var (row, col) := SquareOf(events[k].emoji).value;
      grid.Place(row, col, if currentPlayer == player1 then 1 else 2);
      currentPlayer := if currentPlayer == player2 then player1 else player2;
      next, timedOut := k + 1, false;
    }

    /** `start`: take turns while `check_for_end` reports no end. The source
        returns nothing; the model adds a result, the last value of the loop
        condition: `check_for_end` of the final board, where `None` means the
        wait for a move timed out. */
    method Start(events: seq<Event>) returns (outcome: Option<int>)
      requires Valid()
      modifies this, grid.cells
      ensures Valid()
      ensures State() == Run(old(State()), events)
      ensures outcome == CheckForEnd(State().grid)
    {
      var i := 0;
      var timedOut := false;
      outcome := CheckForEnd(grid.Snapshot());
      while outcome.None? && !timedOut
        invariant Valid() && i <= |events|
        invariant outcome == CheckForEnd(grid.Snapshot())
        invariant Run(old(State()), events) == Run(State(), events[i..])
        invariant timedOut ==> i == |events|
        decreases |events| - i, if timedOut then 0 else 1
      {
        ghost var st := State();
        var next;
        next, timedOut := DoTurn(events, i);
        RunTurn(st, events, i);
        i := next;
        outcome := CheckForEnd(grid.Snapshot());
      }
      RunStopped(State(), events[i..]);
    }
  }
}
