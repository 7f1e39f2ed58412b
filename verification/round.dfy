/** One round: the human's move against the computer's, resolved through
    `beats`, and the round score it moves. */
module Round {
  import opened Moves
  import opened Rules

  datatype Outcome = Draw | HumanWins | ComputerWins

  /** Equal moves draw; otherwise `human.beats(computer)` decides. */
  function Resolve(t: Table, human: Move, computer: Move): (o: Outcome)
    ensures o == Draw <==> human == computer
    ensures o == HumanWins ==> Defeats(human, computer)
  {
    if human == computer then Draw
    else if Beats(t, human, computer) then HumanWins
    else ComputerWins
  }

  /** With the corrected table every round goes to the side whose declared
      list names the other, and never the other way round. */
  lemma ResolveFollowsTable(human: Move, computer: Move)
    ensures Resolve(Corrected, human, computer) == HumanWins <==>
              human != computer && Defeats(human, computer)
    ensures Resolve(Corrected, human, computer) == ComputerWins <==>
              human != computer && Defeats(computer, human)
  {
    CorrectedBeatsIsDeclared(human, computer);
    DeclaredIsTournament();
  }

  /** Swapping the players swaps the winner. */
  lemma ResolveSwapsWinner(a: Move, b: Move)
    requires a != b
    ensures Resolve(Corrected, a, b) == HumanWins <==> Resolve(Corrected, b, a) == ComputerWins
  {
    ResolveFollowsTable(a, b);
    ResolveFollowsTable(b, a);
  }

  /** As written, Lizard against Paper goes to the computer whoever holds
      which, so swapping the players does not swap the winner. */
  lemma LizardPaperAlwaysComputer()
    ensures Resolve(AsDeclared, Lizard, Paper) == ComputerWins
    ensures Resolve(AsDeclared, Paper, Lizard) == ComputerWins
  {
    LizardMissesPaper();
  }

  /** Sample rounds, the same under either table. */
  lemma ResolveExamples(t: Table)
    ensures Resolve(t, Rock, Scissors) == HumanWins
    ensures Resolve(t, Rock, Paper) == ComputerWins
    ensures Resolve(t, Spock, Spock) == Draw
  {
    AsDeclaredWrongOnlyForLizardPaper(Rock, Scissors);
    AsDeclaredWrongOnlyForLizardPaper(Rock, Paper);
    CorrectedBeatsIsDeclared(Rock, Scissors);
    CorrectedBeatsIsDeclared(Rock, Paper);
  }

  /** Rounds won by each side in the current best-of-three. */
  datatype Score = Score(human: nat, computer: nat)

  /** `hscore++` on a human win, `cscore++` on a computer win. */
  function Award(s: Score, o: Outcome): (s': Score)
    ensures o == Draw ==> s' == s
    ensures o != Draw ==> s'.human + s'.computer == s.human + s.computer + 1
    ensures s'.human >= s.human && s'.computer >= s.computer
  {
    match o
    case Draw => s
    case HumanWins => Score(s.human + 1, s.computer)
    case ComputerWins => Score(s.human, s.computer + 1)
  }

  /** A round changes the score in exactly one way: a draw leaves it alone,
      any other round adds exactly one point to exactly one side, the side
      the resolution names. */
  lemma RoundScoresOnce(t: Table, s: Score, human: Move, computer: Move)
    ensures var s' := Award(s, Resolve(t, human, computer));
            && (human == computer ==> s' == s)
            && (human != computer ==>
                  (s' == Score(s.human + 1, s.computer)) != (s' == Score(s.human, s.computer + 1)))
            && (s'.human > s.human <==> Resolve(t, human, computer) == HumanWins)
  {
  }

  /** The score a run of round outcomes builds on top of `s`, round by round. */
  function Tally(s: Score, rounds: seq<Outcome>): Score
    decreases |rounds|
  {
    if |rounds| == 0 then s else Tally(Award(s, rounds[0]), rounds[1..])
  }

  /** Scoring round by round awards one point per round won and none for a
      draw: the tally counts each side's wins. */
  lemma {:induction false} TallyCountsWins(s: Score, rounds: seq<Outcome>)
    ensures Tally(s, rounds) ==
              Score(s.human + multiset(rounds)[HumanWins], s.computer + multiset(rounds)[ComputerWins])
    decreases |rounds|
  {
    if |rounds| > 0 {
      TallyCountsWins(Award(s, rounds[0]), rounds[1..]);
      assert rounds == [rounds[0]] + rounds[1..];
      assert multiset(rounds) == multiset{rounds[0]} + multiset(rounds[1..]);
    }
  }

}
