/** The five moves of Rock, Paper, Scissors, Lizard, Spock, in declaration order,
    and the order the enum's `compareTo` uses. */
module Moves {

  datatype Move = Rock | Paper | Scissors | Lizard | Spock

  /** Number of declared moves: the length of `Move.values()`. */
  const MoveCount: nat := 5

  /** Position of a move in declaration order, the enum's `ordinal()`. */
  function Ordinal(m: Move): (i: nat)
    ensures i < MoveCount
  {
    match m
    case Rock => 0
    case Paper => 1
    case Scissors => 2
    case Lizard => 3
    case Spock => 4
  }

  /** `Move.values()[i]`: the move declared at position `i`. */
  function MoveAt(i: nat): (m: Move)
    requires i < MoveCount
    ensures Ordinal(m) == i
  {
    if i == 0 then Rock
    else if i == 1 then Paper
    else if i == 2 then Scissors
    else if i == 3 then Lizard
    else Spock
  }

  /** The ordinal identifies the move: `values()[m.ordinal()] == m`. */
  lemma MoveAtOrdinal(m: Move)
    ensures MoveAt(Ordinal(m)) == m
  {
  }

}
