/**
 The cumulative score tally: one counter per player's wins and one for
 draws, credited once per finished game, and its fail-soft reload from
 storage.
 */
module Scores {
  import opened Wrappers
  import opened Board

  /**
   Wins of `X`, wins of `O` and draws (the stored keys `X`, `O`, `D`).
   The counters are integers rather than naturals because a reload keeps
   whatever number storage holds, negative ones included.
   */
  datatype Tally = Tally(xWins: int, oWins: int, draws: int)

  /** How a finished game ended. */
  datatype Outcome = WinFor(winner: Player) | Draw

  /** The all-zero tally a fresh session starts from. */
  function Zero(): Tally
  {
    Tally(0, 0, 0)
  }

  /** Number of games the tally accounts for. */
  function Total(t: Tally): int {
    t.xWins + t.oWins + t.draws
  }

  predicate NonNegative(t: Tally) {
    t.xWins >= 0 && t.oWins >= 0 && t.draws >= 0
  }

  /**
   Credit one finished game: the counter of `outcome` rises by exactly one
   and the other two are untouched.
   */
  function Record(t: Tally, outcome: Outcome): (r: Tally)
    ensures Total(r) == Total(t) + 1
    ensures outcome == WinFor(X) <==> r.xWins == t.xWins + 1
    ensures outcome == WinFor(O) <==> r.oWins == t.oWins + 1
    ensures outcome == Draw <==> r.draws == t.draws + 1
    ensures outcome != WinFor(X) ==> r.xWins == t.xWins
    ensures outcome != WinFor(O) ==> r.oWins == t.oWins
    ensures outcome != Draw ==> r.draws == t.draws
    ensures NonNegative(t) ==> NonNegative(r)
  {
    match outcome
    case WinFor(X) => t.(xWins := t.xWins + 1)
    case WinFor(O) => t.(oWins := t.oWins + 1)
    case Draw => t.(draws := t.draws + 1)
  }

  /** Different outcomes leave different tallies behind. */
  lemma RecordInjective(t: Tally, a: Outcome, b: Outcome)
    requires Record(t, a) == Record(t, b)
    ensures a == b
  {
  }

  /**
   What the storage entry for the tally holds, after parsing:
   nothing (no entry, or an empty string, which the program reads as `{}`),
   something that does not parse as an object, or an object whose three
   fields are each a number or missing. A field holding a falsy non-number
   (`null`, `false`, `""`) reads as zero like a missing one and is encoded
   as `None`.
   */
  datatype Stored =
    | Absent
    | Corrupt
    | Parsed(x: Option<int>, o: Option<int>, d: Option<int>)

  /** A stored field, or zero when it is missing or zero (`saved.X || 0`). */
  function FieldOrZero(f: Option<int>): (n: int)
    ensures f.None? ==> n == 0
    ensures f.Some? ==> n == f.value
  {
    f.GetOr(0)
  }

  /**
   The tally a session starts with: an absent or unreadable entry yields
   zeros and never an error; otherwise each field is taken as stored, with
   a missing field read as zero.
   */
  function Load(s: Stored): (t: Tally)
    ensures !s.Parsed? ==> t.xWins == 0 && t.oWins == 0 && t.draws == 0
    ensures s.Parsed? ==> t.xWins == FieldOrZero(s.x)
    ensures s.Parsed? ==> t.oWins == FieldOrZero(s.o)
    ensures s.Parsed? ==> t.draws == FieldOrZero(s.d)
  {
    match s
    case Absent => Tally(0, 0, 0)
    case Corrupt => Tally(0, 0, 0)
    case Parsed(x, o, d) => Tally(FieldOrZero(x), FieldOrZero(o), FieldOrZero(d))
  }

  /** The entry written back after every credit: all three counters. */
  function Save(t: Tally): (s: Stored)
    ensures s.Parsed? && s.x.Some? && s.o.Some? && s.d.Some?
  {
    Parsed(Some(t.xWins), Some(t.oWins), Some(t.draws))
  }

  /** Reloading what was saved gives back the same tally. */
  lemma LoadSave(t: Tally)
    ensures Load(Save(t)) == t
  {
  }

  /** A stored entry with no negative number loads as a non-negative tally. */
  lemma LoadNonNegative(s: Stored)
    requires s.Parsed? ==> FieldOrZero(s.x) >= 0 && FieldOrZero(s.o) >= 0 && FieldOrZero(s.d) >= 0
    ensures NonNegative(Load(s))
  {
  }
}
