/**
 The 3x3 grid of the game: the marks, the eight winning lines in their
 fixed scanning order, and the query that reports the first completed line.
 */
module Board {
  import opened Wrappers

  /** The two marks; `X` always opens a game. */
  datatype Player = X | O

  /** A square: empty (`null` in the program) or holding a mark. */
  datatype Cell = Empty | Mark(player: Player)

  /** Number of squares; they are numbered 0..8 row by row. */
  const Size: nat := 9

  /** The player who moves after `p`. */
  function Other(p: Player): (q: Player)
    ensures q != p
  {
    match p
    case X => O
    case O => X
  }

  /** Three square indices that win when they all hold the same mark. */
  datatype Line = Line(a: nat, b: nat, c: nat)

  /** The eight lines in the order they are scanned: rows, columns, diagonals. */
  const Wins: seq<Line> := [
    Line(0, 1, 2), Line(3, 4, 5), Line(6, 7, 8),
    Line(0, 3, 6), Line(1, 4, 7), Line(2, 5, 8),
    Line(0, 4, 8), Line(2, 4, 6)
  ]

  /** A board of the right size with every square empty. */
  function EmptyBoard(): (b: seq<Cell>)
    ensures |b| == Size
    ensures forall j :: 0 <= j < |b| ==> b[j] == Empty
  {
    seq(Size, _ => Empty)
  }

  /** Every square holds a mark (`board.every(Boolean)`). */
  predicate Full(b: seq<Cell>) {
    forall j :: 0 <= j < |b| ==> b[j] != Empty
  }

  /**
   Line `l` is completed on `b`: its first square holds a mark and the other
   two hold the same one. An index off the board reads as empty.
   */
  predicate Complete(b: seq<Cell>, l: Line) {
    && l.a < |b| && l.b < |b| && l.c < |b|
    && b[l.a] != Empty
    && b[l.a] == b[l.b]
    && b[l.a] == b[l.c]
  }

  /** `Wins[k]` is completed on `b` and no line before it is. */
  predicate FirstCompleteAt(b: seq<Cell>, k: int) {
    && 0 <= k < |Wins|
    && Complete(b, Wins[k])
    && forall j :: 0 <= j < k ==> !Complete(b, Wins[j])
  }

  /** Index of the first completed line among `Wins[k..]`, if any. */
  function FirstComplete(b: seq<Cell>, k: nat): (r: Option<nat>)
    requires k <= |Wins|
    ensures r.Some? ==> k <= r.value < |Wins| && Complete(b, Wins[r.value])
    ensures r.Some? ==> forall j :: k <= j < r.value ==> !Complete(b, Wins[j])
    ensures r.None? ==> forall j :: k <= j < |Wins| ==> !Complete(b, Wins[j])
    decreases |Wins| - k
  {
    if k == |Wins| then None
    else if Complete(b, Wins[k]) then Some(k)
    else FirstComplete(b, k + 1)
  }

  /**
   The first line, in the order of `Wins`, whose three squares hold the same
   mark; `None` when there is no such line.
   */
  function WinningLine(b: seq<Cell>): (r: Option<Line>)
    ensures r.Some? ==> r.value in Wins && Complete(b, r.value)
    ensures r.Some? ==> exists k :: FirstCompleteAt(b, k) && r.value == Wins[k]
    ensures r.None? <==> forall k :: 0 <= k < |Wins| ==> !Complete(b, Wins[k])
  {
    match FirstComplete(b, 0)
    case None => None
    case Some(k) => Some(Wins[k])
  }

  /** No line appears twice in the scanning order. */
  lemma WinsDistinct()
    ensures forall i, j :: 0 <= i < j < |Wins| ==> Wins[i] != Wins[j]
  {
  }

  /**
   The reported line is exactly the first completed one: `WinningLine`
   returns `Wins[k]` if and only if `Wins[k]` is complete and no earlier
   line is. So a completed line is always found, and among several the
   earliest is reported.
   */
  lemma WinningLineIsFirst(b: seq<Cell>, k: int)
    requires 0 <= k < |Wins|
    ensures WinningLine(b) == Some(Wins[k]) <==> FirstCompleteAt(b, k)
  {
    WinsDistinct();
  }

  /**
   A line completed by writing `p` into the empty square `i` of a board on
   which it was not complete passes through `i` and carries `p`'s mark.
   */
  lemma NewLineThroughMove(b: seq<Cell>, i: int, p: Player, l: Line)
    requires 0 <= i < |b| && b[i] == Empty
    requires !Complete(b, l) && Complete(b[i := Mark(p)], l)
    ensures i == l.a || i == l.b || i == l.c
    ensures b[i := Mark(p)][l.a] == Mark(p)
  {
  }

  /** Number of squares of `b` holding `c`. */
  function Count(b: seq<Cell>, c: Cell): (n: nat)
    ensures n <= |b|
  {
    if |b| == 0 then 0
    else (if b[0] == c then 1 else 0) + Count(b[1..], c)
  }

  /** Overwriting square `i` moves one unit of count from its old to its new content. */
  lemma {:induction false} CountUpdate(b: seq<Cell>, i: int, v: Cell, c: Cell)
    requires 0 <= i < |b|
    ensures Count(b[i := v], c)
         == Count(b, c) - (if b[i] == c then 1 else 0) + (if v == c then 1 else 0)
  {
    if i == 0 {
      assert b[i := v][1..] == b[1..];
    } else {
      CountUpdate(b[1..], i - 1, v, c);
      assert b[i := v][1..] == b[1..][i - 1 := v];
    }
  }

  /** A board is full exactly when no square is counted as empty. */
  lemma {:induction false} FullIffNoEmpty(b: seq<Cell>)
    ensures Full(b) <==> Count(b, Empty) == 0
  {
    if |b| > 0 {
      FullIffNoEmpty(b[1..]);
      if Full(b) {
        assert forall j :: 0 <= j < |b[1..]| ==> b[1..][j] == b[j + 1];
      }
      if Count(b, Empty) == 0 {
        forall j | 0 <= j < |b|
          ensures b[j] != Empty
        {
          if j > 0 { assert b[j] == b[1..][j - 1]; }
        }
      }
    }
  }
}
