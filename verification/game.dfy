/**
 The game-state engine: the board, whose turn it is and whether the game is
 still in progress, beside the score tally. `Move` is the click on a square,
 `Reset` the new-game button, `Startup` the state when the page loads.
 */
module Game {
  import opened Wrappers
  import opened Board
  import opened Scores

  /** One game: the nine squares, the player to move, and whether moves are accepted. */
  datatype Game = Game(board: seq<Cell>, current: Player, active: bool)

  /** Everything a move can change: the game and the tally beside it. */
  datatype Session = Session(game: Game, scores: Tally)

  /**
   What a move reports to the page: nothing (rejected), a win with the line
   to highlight, a draw, or the player whose turn it now is.
   */
  datatype Event =
    | Ignored
    | Won(winner: Player, line: Line)
    | Drawn
    | TurnPassed(next: Player)

  datatype Step = Step(session: Session, event: Event)

  /** A game about to start: empty board, `X` to move, accepting moves. */
  function NewGame(): (g: Game)
    ensures |g.board| == Size && g.current == X && g.active
    ensures forall j :: 0 <= j < Size ==> g.board[j] == Empty
  {
    Game(EmptyBoard(), X, true)
  }

  /** The session when the page loads: a new game and the reloaded tally. */
  function Startup(stored: Stored): (s: Session)
    ensures s.game == NewGame()
    ensures !stored.Parsed? ==> s.scores == Zero()
    ensures stored.Parsed? ==>
      && s.scores.xWins == FieldOrZero(stored.x)
      && s.scores.oWins == FieldOrZero(stored.o)
      && s.scores.draws == FieldOrZero(stored.d)
  {
    Session(NewGame(), Load(stored))
  }

  /** Start a new game; the tally is kept. */
  function Reset(s: Session): (r: Session)
    ensures |r.game.board| == Size
    ensures forall j :: 0 <= j < Size ==> r.game.board[j] == Empty
    ensures r.game.current == X && r.game.active
    ensures r.scores == s.scores
  {
    Session(NewGame(), s.scores)
  }

  /**
   A click on square `i`. It is ignored when the game is over or the square
   is taken. Otherwise the current player's mark is written into it; a
   completed line then ends the game as that player's win, checked before a
   full board ends it as a draw; failing both, the turn passes.
   */
  function Move(s: Session, i: int): (r: Step)
    requires |s.game.board| == Size && 0 <= i < Size
    ensures |r.session.game.board| == Size
    // rejected moves change nothing at all
    ensures r.event == Ignored <==> !s.game.active || s.game.board[i] != Empty
    ensures r.event == Ignored ==> r.session == s
    // an accepted move marks square i and no other
    ensures r.event != Ignored ==>
      forall j :: 0 <= j < Size ==>
        r.session.game.board[j] == (if j == i then Mark(s.game.current) else s.game.board[j])
    // a win comes before a draw
    ensures r.event != Ignored ==>
      (r.event.Won? <==> WinningLine(r.session.game.board).Some?)
    ensures r.event.Won? ==>
      && r.event.winner == s.game.current
      && WinningLine(r.session.game.board) == Some(r.event.line)
      && !r.session.game.active
      && r.session.game.current == s.game.current
      && r.session.scores == Record(s.scores, WinFor(s.game.current))
    ensures r.event == Drawn ==>
      && WinningLine(r.session.game.board).None?
      && Full(r.session.game.board)
      && !r.session.game.active
      && r.session.game.current == s.game.current
      && r.session.scores == Record(s.scores, Draw)
    ensures r.event.TurnPassed? ==>
      && WinningLine(r.session.game.board).None?
      && !Full(r.session.game.board)
      && r.session.game.active
      && r.session.game.current == Other(s.game.current)
      && r.event.next == r.session.game.current
      && r.session.scores == s.scores
  {
    var g := s.game;
    if !g.active || g.board[i] != Empty then
      Step(s, Ignored)
    else
      var b := g.board[i := Mark(g.current)];
      match WinningLine(b)
      case Some(line) =>
        Step(Session(Game(b, g.current, false), Record(s.scores, WinFor(g.current))),
             Won(g.current, line))
      case None =>
        if Full(b) then
          Step(Session(Game(b, g.current, false), Record(s.scores, Draw)), Drawn)
        else
          Step(Session(Game(b, Other(g.current), true), s.scores), TurnPassed(Other(g.current)))
  }

  /**
   What a move writes to storage: the whole tally right after it is
   credited, and nothing for a move that does not end the game.
   */
  function Persisted(st: Step): (w: Option<Stored>)
    ensures w.Some? <==> st.event.Won? || st.event == Drawn
    ensures w.Some? ==> Load(w.value) == st.session.scores
  {
    LoadSave(st.session.scores);
    if st.event.Won? || st.event == Drawn then Some(Save(st.session.scores)) else None
  }

  /** Every entry of `moves` names a square. */
  predicate ValidMoves(moves: seq<int>) {
    forall k :: 0 <= k < |moves| ==> 0 <= moves[k] < Size
  }

  /**
   The session after clicking the squares `moves` in turn. Once a game is
   over it stays over: nothing but `Reset` starts another.
   */
  function Play(s: Session, moves: seq<int>): (r: Session)
    requires |s.game.board| == Size && ValidMoves(moves)
    ensures |r.game.board| == Size
    ensures r.game.active ==> s.game.active
    ensures !s.game.active ==> r == s
    decreases |moves|
  {
    if |moves| == 0 then s
    else Play(Move(s, moves[0]).session, moves[1..])
  }

  /** The outcome a finished game is credited with. */
  function Result(g: Game): Outcome {
    if WinningLine(g.board).Some? then WinFor(g.current) else Draw
  }

  /**
   The invariant of every game reachable from `NewGame`. While it is in
   progress no line is complete, some square is free, and `X` has made as
   many moves as `O` when it is `X`'s turn and one more when it is `O`'s.
   Once it is over a line is complete or the board is full, `current` is
   the player who moved last, and a completed line carries that player's
   mark.
   */
  predicate Consistent(g: Game) {
    && |g.board| == Size
    && (g.active ==>
          && WinningLine(g.board).None?
          && !Full(g.board)
          && Count(g.board, Mark(X)) == Count(g.board, Mark(O)) + (if g.current == X then 0 else 1))
    && (!g.active ==>
          && (WinningLine(g.board).Some? || Full(g.board))
          && Count(g.board, Mark(X)) == Count(g.board, Mark(O)) + (if g.current == X then 1 else 0)
          && (WinningLine(g.board).Some? ==> g.board[WinningLine(g.board).value.a] == Mark(g.current)))
  }

  /** A new game, and so the game after any reset, is consistent. */
  lemma ResetConsistent(s: Session)
    ensures Consistent(Reset(s).game)
    ensures Consistent(NewGame())
  {
    var b := NewGame().board;
    FullIffNoEmpty(b);
    CountAllEmpty(b, Mark(X));
    CountAllEmpty(b, Mark(O));
    assert b[0] == Empty;
  }

  /** The game the page opens with is consistent, whatever storage held. */
  lemma StartupConsistent(stored: Stored)
    ensures Consistent(Startup(stored).game)
  {
    ResetConsistent(Startup(stored));
  }

  lemma {:induction false} CountAllEmpty(b: seq<Cell>, c: Cell)
    requires c != Empty
    requires forall j :: 0 <= j < |b| ==> b[j] == Empty
    ensures Count(b, c) == 0
  {
    if |b| > 0 {
      CountAllEmpty(b[1..], c);
    }
  }

  /** Every move keeps a consistent game consistent. */
  lemma MovePreservesConsistency(s: Session, i: int)
    requires Consistent(s.game) && 0 <= i < Size
    ensures Consistent(Move(s, i).session.game)
  {
    var g := s.game;
    if g.active && g.board[i] == Empty {
      var p := g.current;
      var b := g.board[i := Mark(p)];
      CountUpdate(g.board, i, Mark(p), Mark(X));
      CountUpdate(g.board, i, Mark(p), Mark(O));
      match WinningLine(b)
      case Some(line) =>
        var k :| FirstCompleteAt(b, k) && line == Wins[k];
        NewLineThroughMove(g.board, i, p, line);
      case None =>
    }
  }

  /** Any sequence of clicks keeps a consistent game consistent. */
  lemma {:induction false} PlayPreservesConsistency(s: Session, moves: seq<int>)
    requires Consistent(s.game) && ValidMoves(moves)
    ensures Consistent(Play(s, moves).game)
    decreases |moves|
  {
    if |moves| > 0 {
      MovePreservesConsistency(s, moves[0]);
      PlayPreservesConsistency(Move(s, moves[0]).session, moves[1..]);
    }
  }

  /**
   Over any run of clicks within one game, the tally changes only if that
   game finishes, and then exactly one counter rises by exactly one.
   */
  lemma {:induction false} PlayCreditsOnce(s: Session, moves: seq<int>)
    requires |s.game.board| == Size && ValidMoves(moves)
    ensures var r := Play(s, moves);
      && (s.game.active && !r.game.active ==> r.scores == Record(s.scores, Result(r.game)))
      && (!(s.game.active && !r.game.active) ==> r.scores == s.scores)
    decreases |moves|
  {
    if |moves| > 0 {
      var s1 := Move(s, moves[0]).session;
      PlayCreditsOnce(s1, moves[1..]);
    }
  }

  /**
   From an open game whose tally counts no games (the first game of a page
   opened with nothing readable in storage), any run of clicks leaves a
   tally that counts one game if the game has ended and none otherwise,
   with no negative counter.
   */
  lemma PlayFromEmptyTally(s: Session, moves: seq<int>)
    requires |s.game.board| == Size && s.game.active && ValidMoves(moves)
    requires Total(s.scores) == 0 && NonNegative(s.scores)
    ensures var r := Play(s, moves);
      && Total(r.scores) == (if r.game.active then 0 else 1)
      && NonNegative(r.scores)
  {
    PlayCreditsOnce(s, moves);
  }

  /** A mark, once written, stays for the rest of the game. */
  lemma {:induction false} PlayKeepsMarks(s: Session, moves: seq<int>)
    requires |s.game.board| == Size && ValidMoves(moves)
    ensures forall j :: 0 <= j < Size && s.game.board[j] != Empty ==>
      Play(s, moves).game.board[j] == s.game.board[j]
    decreases |moves|
  {
    if |moves| > 0 {
      PlayKeepsMarks(Move(s, moves[0]).session, moves[1..]);
    }
  }

  /** An accepted move fills exactly one more square. */
  lemma MoveFillsOneSquare(s: Session, i: int)
    requires |s.game.board| == Size && 0 <= i < Size
    requires s.game.active && s.game.board[i] == Empty
    ensures Count(Move(s, i).session.game.board, Empty) == Count(s.game.board, Empty) - 1
  {
    CountUpdate(s.game.board, i, Mark(s.game.current), Empty);
  }
}
