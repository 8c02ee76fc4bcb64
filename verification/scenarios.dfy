/**
 Whole games played click by click from a new game, with the boards they
 pass through written out.
 */
module Scenarios {
  import opened Wrappers
  import opened Board
  import opened Scores
  import opened Game

  /** Clicking `m` and then `rest` is clicking `m`, then playing `rest`. */
  lemma PlayCons(s: Session, m: int, rest: seq<int>)
    requires |s.game.board| == Size && 0 <= m < Size && ValidMoves(rest)
    ensures ValidMoves([m] + rest)
    ensures Play(s, [m] + rest) == Play(Move(s, m).session, rest)
  {
    assert ([m] + rest)[1..] == rest;
  }

  /** An accepted click that completes no line on a board it does not fill passes the turn. */
  lemma PassStep(s: Session, i: int, b: seq<Cell>)
    requires |s.game.board| == Size && 0 <= i < Size && s.game.active && s.game.board[i] == Empty
    requires b == s.game.board[i := Mark(s.game.current)]
    requires WinningLine(b) == None && !Full(b)
    ensures Move(s, i).session == Session(Game(b, Other(s.game.current), true), s.scores)
  {
  }

  /** An accepted click that completes no line but fills the board ends in a draw. */
  lemma DrawStep(s: Session, i: int, b: seq<Cell>)
    requires |s.game.board| == Size && 0 <= i < Size && s.game.active && s.game.board[i] == Empty
    requires b == s.game.board[i := Mark(s.game.current)]
    requires WinningLine(b) == None && Full(b)
    ensures Move(s, i).event == Drawn
    ensures Move(s, i).session
         == Session(Game(b, s.game.current, false), Record(s.scores, Draw))
  {
  }

  /** An accepted click that completes line `l` wins the game for the mover. */
  lemma WinStep(s: Session, i: int, b: seq<Cell>, l: Line)
    requires |s.game.board| == Size && 0 <= i < Size && s.game.active && s.game.board[i] == Empty
    requires b == s.game.board[i := Mark(s.game.current)]
    requires WinningLine(b) == Some(l)
    ensures Move(s, i).event == Won(s.game.current, l)
    ensures Move(s, i).session
         == Session(Game(b, s.game.current, false), Record(s.scores, WinFor(s.game.current)))
  {
  }

  // The boards of a game in which X wins down the left column.
  const Col1: seq<Cell> := [Mark(X), Empty, Empty, Empty, Empty, Empty, Empty, Empty, Empty]
  const Col2: seq<Cell> := [Mark(X), Mark(O), Empty, Empty, Empty, Empty, Empty, Empty, Empty]
  const Col3: seq<Cell> := [Mark(X), Mark(O), Empty, Mark(X), Empty, Empty, Empty, Empty, Empty]
  const Col4: seq<Cell> := [Mark(X), Mark(O), Empty, Mark(X), Mark(O), Empty, Empty, Empty, Empty]
  const Col5: seq<Cell> := [Mark(X), Mark(O), Empty, Mark(X), Mark(O), Empty, Mark(X), Empty, Empty]

  lemma ColumnBoards()
    ensures WinningLine(Col1) == None && !Full(Col1)
    ensures WinningLine(Col2) == None && !Full(Col2)
    ensures WinningLine(Col3) == None && !Full(Col3)
    ensures WinningLine(Col4) == None && !Full(Col4)
  {
    assert Col1[8] == Empty && Col2[8] == Empty && Col3[8] == Empty && Col4[8] == Empty;
  }

  lemma ColumnFinalBoard()
    ensures Col4[6 := Mark(X)] == Col5
    ensures WinningLine(Col5) == Some(Line(0, 3, 6))
  {
  }

  lemma ColumnOpening(t: Tally)
    ensures Play(Session(NewGame(), t), [0, 1, 3, 4]) == Session(Game(Col4, X, true), t)
  {
    ColumnBoards();
    var s0 := Session(NewGame(), t);
    var s1 := Session(Game(Col1, O, true), t);
    var s2 := Session(Game(Col2, X, true), t);
    var s3 := Session(Game(Col3, O, true), t);
    var s4 := Session(Game(Col4, X, true), t);
    assert s0.game.board[0 := Mark(X)] == Col1;
    PassStep(s0, 0, Col1);
    assert Col1[1 := Mark(O)] == Col2;
    PassStep(s1, 1, Col2);
    assert Col2[3 := Mark(X)] == Col3;
    PassStep(s2, 3, Col3);
    assert Col3[4 := Mark(O)] == Col4;
    PassStep(s3, 4, Col4);
    PlayChain4(s0, s1, s2, s3, s4, 0, 1, 3, 4, []);
    assert [0, 1, 3, 4] + [] == [0, 1, 3, 4];
  }

  /** Four clicks that lead from `s0` through `s1`, `s2`, `s3` to `s4`. */
  lemma PlayChain4(s0: Session, s1: Session, s2: Session, s3: Session, s4: Session,
                   a: int, b: int, c: int, d: int, rest: seq<int>)
    requires |s0.game.board| == Size && ValidMoves(rest)
    requires 0 <= a < Size && 0 <= b < Size && 0 <= c < Size && 0 <= d < Size
    requires Move(s0, a).session == s1 && Move(s1, b).session == s2
    requires Move(s2, c).session == s3 && Move(s3, d).session == s4
    ensures ValidMoves([a, b, c, d] + rest)
    ensures Play(s0, [a, b, c, d] + rest) == Play(s4, rest)
  {
    PlayCons(s3, d, rest);
    PlayCons(s2, c, [d] + rest);
    PlayCons(s1, b, [c] + ([d] + rest));
    PlayCons(s0, a, [b] + ([c] + ([d] + rest)));
    assert [a] + ([b] + ([c] + ([d] + rest))) == [a, b, c, d] + rest;
  }

  /**
   `X` takes 0, 3 and 6 while `O` takes 1 and 4: the last click completes
   the left column, which is reported and credited to `X`.
   */
  lemma ColumnWinForX(t: Tally)
    ensures var st := Move(Play(Session(NewGame(), t), [0, 1, 3, 4]), 6);
      && st.session.game.board == Col5
      && st.event == Won(X, Line(0, 3, 6))
      && !st.session.game.active
      && st.session.scores == Record(t, WinFor(X))
  {
    ColumnOpening(t);
    ColumnFinalBoard();
    WinStep(Session(Game(Col4, X, true), t), 6, Col5, Line(0, 3, 6));
  }

  /** Clicking `moves` and then `m` is playing `moves`, then clicking `m`. */
  lemma {:induction false} PlayAppend(s: Session, moves: seq<int>, m: int)
    requires |s.game.board| == Size && ValidMoves(moves) && 0 <= m < Size
    ensures ValidMoves(moves + [m])
    ensures Play(s, moves + [m]) == Move(Play(s, moves), m).session
    decreases |moves|
  {
    if |moves| == 0 {
      assert [m][1..] == [];
    } else {
      assert (moves + [m])[1..] == moves[1..] + [m];
      PlayAppend(Move(s, moves[0]).session, moves[1..], m);
    }
  }

  lemma ColumnWinningClick(t: Tally)
    ensures Move(Session(Game(Col4, X, true), t), 6).session
         == Session(Game(Col5, X, false), Record(t, WinFor(X)))
  {
    ColumnFinalBoard();
    WinStep(Session(Game(Col4, X, true), t), 6, Col5, Line(0, 3, 6));
  }

  /** The whole column game ends over, on `Col5`, with the win credited. */
  lemma ColumnGame(t: Tally)
    ensures Play(Session(NewGame(), t), [0, 1, 3, 4, 6])
         == Session(Game(Col5, X, false), Record(t, WinFor(X)))
  {
    var opening := [0, 1, 3, 4];
    PlayAppend(Session(NewGame(), t), opening, 6);
    assert opening + [6] == [0, 1, 3, 4, 6];
    ColumnOpening(t);
    ColumnWinningClick(t);
  }

  /**
   After `X` wins down the left column further clicks are ignored, and a
   reset starts a new game while the credited win stays on the tally.
   */
  lemma ResetAfterWin(t: Tally)
    ensures var s := Play(Session(NewGame(), t), [0, 1, 3, 4, 6]);
      && Move(s, 8).event == Ignored
      && Reset(s).game == NewGame()
      && Reset(s).scores == Record(t, WinFor(X))
  {
    ColumnGame(t);
  }

  // The boards of a game that fills up with no line: X takes 0, 1, 5, 6, 8
  // and O takes 2, 3, 4, 7.
  const Tie1: seq<Cell> := [Mark(X), Empty, Empty, Empty, Empty, Empty, Empty, Empty, Empty]
  const Tie2: seq<Cell> := [Mark(X), Empty, Mark(O), Empty, Empty, Empty, Empty, Empty, Empty]
  const Tie3: seq<Cell> := [Mark(X), Mark(X), Mark(O), Empty, Empty, Empty, Empty, Empty, Empty]
  const Tie4: seq<Cell> := [Mark(X), Mark(X), Mark(O), Mark(O), Empty, Empty, Empty, Empty, Empty]
  const Tie5: seq<Cell> := [Mark(X), Mark(X), Mark(O), Mark(O), Empty, Mark(X), Empty, Empty, Empty]
  const Tie6: seq<Cell> := [Mark(X), Mark(X), Mark(O), Mark(O), Mark(O), Mark(X), Empty, Empty, Empty]
  const Tie7: seq<Cell> := [Mark(X), Mark(X), Mark(O), Mark(O), Mark(O), Mark(X), Mark(X), Empty, Empty]
  const Tie8: seq<Cell> := [Mark(X), Mark(X), Mark(O), Mark(O), Mark(O), Mark(X), Mark(X), Mark(O), Empty]
  const Tie9: seq<Cell> := [Mark(X), Mark(X), Mark(O), Mark(O), Mark(O), Mark(X), Mark(X), Mark(O), Mark(X)]

  lemma TieBoardsEarly()
    ensures WinningLine(Tie1) == None && !Full(Tie1)
    ensures WinningLine(Tie2) == None && !Full(Tie2)
    ensures WinningLine(Tie3) == None && !Full(Tie3)
    ensures WinningLine(Tie4) == None && !Full(Tie4)
  {
    assert Tie1[8] == Empty && Tie2[8] == Empty && Tie3[8] == Empty && Tie4[8] == Empty;
  }

  lemma TieBoardsLate()
    ensures WinningLine(Tie5) == None && !Full(Tie5)
    ensures WinningLine(Tie6) == None && !Full(Tie6)
    ensures WinningLine(Tie7) == None && !Full(Tie7)
    ensures WinningLine(Tie8) == None && !Full(Tie8)
  {
    assert Tie5[8] == Empty && Tie6[8] == Empty && Tie7[8] == Empty && Tie8[8] == Empty;
  }

  lemma TieBoardFull()
    ensures Tie8[8 := Mark(X)] == Tie9
    ensures WinningLine(Tie9) == None && Full(Tie9)
  {
  }

  lemma TieOpeningClicks(t: Tally)
    ensures Move(Session(NewGame(), t), 0).session == Session(Game(Tie1, O, true), t)
    ensures Move(Session(Game(Tie1, O, true), t), 2).session == Session(Game(Tie2, X, true), t)
    ensures Move(Session(Game(Tie2, X, true), t), 1).session == Session(Game(Tie3, O, true), t)
    ensures Move(Session(Game(Tie3, O, true), t), 3).session == Session(Game(Tie4, X, true), t)
  {
    TieBoardsEarly();
    var s0 := Session(NewGame(), t);
    assert s0.game.board[0 := Mark(X)] == Tie1;
    PassStep(s0, 0, Tie1);
    assert Tie1[2 := Mark(O)] == Tie2;
    PassStep(Session(Game(Tie1, O, true), t), 2, Tie2);
    assert Tie2[1 := Mark(X)] == Tie3;
    PassStep(Session(Game(Tie2, X, true), t), 1, Tie3);
    assert Tie3[3 := Mark(O)] == Tie4;
    PassStep(Session(Game(Tie3, O, true), t), 3, Tie4);
  }

  lemma TieOpening(t: Tally, rest: seq<int>)
    requires ValidMoves(rest)
    ensures ValidMoves([0, 2, 1, 3] + rest)
    ensures Play(Session(NewGame(), t), [0, 2, 1, 3] + rest)
         == Play(Session(Game(Tie4, X, true), t), rest)
  {
    TieOpeningClicks(t);
    PlayChain4(Session(NewGame(), t), Session(Game(Tie1, O, true), t),
               Session(Game(Tie2, X, true), t), Session(Game(Tie3, O, true), t),
               Session(Game(Tie4, X, true), t), 0, 2, 1, 3, rest);
  }

  lemma TieMiddle(t: Tally)
    ensures Play(Session(Game(Tie4, X, true), t), [5, 4, 6, 7]) == Session(Game(Tie8, X, true), t)
  {
    TieBoardsLate();
    var s4 := Session(Game(Tie4, X, true), t);
    var s5 := Session(Game(Tie5, O, true), t);
    var s6 := Session(Game(Tie6, X, true), t);
    var s7 := Session(Game(Tie7, O, true), t);
    var s8 := Session(Game(Tie8, X, true), t);
    assert Tie4[5 := Mark(X)] == Tie5;
    PassStep(s4, 5, Tie5);
    assert Tie5[4 := Mark(O)] == Tie6;
    PassStep(s5, 4, Tie6);
    assert Tie6[6 := Mark(X)] == Tie7;
    PassStep(s6, 6, Tie7);
    assert Tie7[7 := Mark(O)] == Tie8;
    PassStep(s7, 7, Tie8);
    PlayChain4(s4, s5, s6, s7, s8, 5, 4, 6, 7, []);
    assert [5, 4, 6, 7] + [] == [5, 4, 6, 7];
  }

  /**
   The first eight clicks of the tie game. `rest` names the last four so
   that the click list is not unfolded as a literal.
   */
  lemma TiePlay(t: Tally, rest: seq<int>)
    requires rest == [5, 4, 6, 7]
    ensures Play(Session(NewGame(), t), [0, 2, 1, 3] + rest) == Session(Game(Tie8, X, true), t)
  {
    TieOpening(t, rest);
    TieMiddle(t);
  }

  lemma TieLastClick(t: Tally)
    ensures Move(Session(Game(Tie8, X, true), t), 8).event == Drawn
    ensures Move(Session(Game(Tie8, X, true), t), 8).session
         == Session(Game(Tie9, X, false), Record(t, Draw))
  {
    TieBoardFull();
    DrawStep(Session(Game(Tie8, X, true), t), 8, Tie9);
  }

  /**
   `X` takes 0, 1, 5, 6, 8 and `O` takes 2, 3, 4, 7: the last click fills
   the board with no line complete and the game is credited as a draw.
   */
  lemma FullBoardDraw(t: Tally)
    ensures var st := Move(Play(Session(NewGame(), t), [0, 2, 1, 3, 5, 4, 6, 7]), 8);
      && st.event == Drawn
      && !st.session.game.active
      && st.session.scores == Record(t, Draw)
  {
    var rest := [5, 4, 6, 7];
    TiePlay(t, rest);
    assert [0, 2, 1, 3] + rest == [0, 2, 1, 3, 5, 4, 6, 7];
    TieLastClick(t);
  }

  /**
   After the drawn game further clicks are ignored, and a reset starts a
   new game while the credited draw stays on the tally.
   */
  lemma ResetAfterDraw(t: Tally)
    ensures var s := Move(Play(Session(NewGame(), t), [0, 2, 1, 3, 5, 4, 6, 7]), 8).session;
      && Move(s, 0).event == Ignored
      && Reset(s).game == NewGame()
      && Reset(s).scores == Record(t, Draw)
  {
    var rest := [5, 4, 6, 7];
    TiePlay(t, rest);
    assert [0, 2, 1, 3] + rest == [0, 2, 1, 3, 5, 4, 6, 7];
    TieLastClick(t);
  }
}
