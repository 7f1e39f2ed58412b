/** The match engine of `main`: best-of-three games played round by round,
    and the running tally of games across a session. `java.util.Random` is
    replaced by the sequence of moves it draws, one per round, drawn before
    the human is asked. Running out of either input ends the session early
    (`OutOfInput`); the real generator never runs out, and the real `Scanner`
    throws instead. */
module Engine {
  import opened Moves
  import opened Wrappers
  import opened Rules
  import opened Round
  import opened Input

  /** One best-of-three as it ended: the final round score, whether the human
      quit, and the outcome of every round played, draws included. */
  datatype Game = Game(score: Score, quit: bool, rounds: seq<Outcome>)

  /** A game together with the input it left unread, or the input ran out
      before the game ended. */
  datatype Played = Played(game: Game, lines: seq<string>, draws: seq<Move>) | OutOfInput

  /** Neither side has reached 2 rounds: the game is still on. */
  predicate InPlay(s: Score) {
    s.human < 2 && s.computer < 2
  }

  /** The `bestofthree` loop, from round score `s` on. Each round draws the
      computer's move, then asks for the human's; a quit leaves the score as it
      is; otherwise the round is resolved and scored, and the loop goes on while
      neither score is 2. */
  function PlayRounds(t: Table, s: Score, lines: seq<string>, draws: seq<Move>): (r: Played)
    requires InPlay(s)
    ensures r.Played? ==> |r.draws| < |draws|
    ensures r.Played? ==> r.game.score.human <= 2 && r.game.score.computer <= 2
    ensures r.Played? ==> (r.game.quit <==> InPlay(r.game.score))
    ensures r.Played? ==> r.game.score.human < 2 || r.game.score.computer < 2
    decreases |draws|
  {
    if |draws| == 0 then OutOfInput
    else
      var computer := draws[0];
      match GetHumanMove(lines)
      case Exhausted => OutOfInput
      case Read(None, rest) => Played(Game(s, true, []), rest, draws[1..])
      case Read(Some(human), rest) =>
        var o := Resolve(t, human, computer);
        var s' := Award(s, o);
        if s'.human != 2 && s'.computer != 2 then
          var r := PlayRounds(t, s', rest, draws[1..]);
          if r.OutOfInput? then OutOfInput
          else
            Played(Game(r.game.score, r.game.quit, [o] + r.game.rounds), r.lines, r.draws)
        else
          Played(Game(s', false, [o]), rest, draws[1..])
  }

  /** The final score is the tally of the rounds played: one point per round
      won, none for a draw. */
  lemma {:induction false} ScoreIsTally(t: Table, s: Score, lines: seq<string>, draws: seq<Move>)
    requires InPlay(s)
    ensures var r := PlayRounds(t, s, lines, draws);
            r.Played? ==> r.game.score == Tally(s, r.game.rounds)
    decreases |draws|
  {
    if |draws| > 0 {
      match GetHumanMove(lines)
      case Exhausted =>
      case Read(None, rest) =>
      case Read(Some(human), rest) =>
        var o := Resolve(t, human, draws[0]);
        var s' := Award(s, o);
        if s'.human != 2 && s'.computer != 2 {
          ScoreIsTally(t, s', rest, draws[1..]);
          var r' := PlayRounds(t, s', rest, draws[1..]);
          if r'.Played? {
            assert ([o] + r'.game.rounds)[1..] == r'.game.rounds;
          }
        } else {
          assert [o][1..] == [];
        }
    }
  }

  /** Every round in `rounds`, scored from `s` on, starts from a score at
      which neither side has 2 yet. */
  predicate EachRoundInPlay(s: Score, rounds: seq<Outcome>)
    decreases |rounds|
  {
    |rounds| == 0 || (InPlay(s) && EachRoundInPlay(Award(s, rounds[0]), rounds[1..]))
  }

  /** Stated over prefixes: before each round, the tally of the rounds so far
      leaves the game in play. */
  lemma {:induction false} EachRoundInPlayPrefixes(s: Score, rounds: seq<Outcome>)
    requires EachRoundInPlay(s, rounds)
    ensures forall k :: 0 <= k < |rounds| ==> InPlay(Tally(s, rounds[..k]))
    decreases |rounds|
  {
    if |rounds| > 0 {
      var o, rest := rounds[0], rounds[1..];
      assert rounds == [o] + rest;
      EachRoundInPlayPrefixes(Award(s, o), rest);
      forall k | 0 <= k < |rounds|
        ensures InPlay(Tally(s, rounds[..k]))
      {
        if k == 0 {
          assert rounds[..0] == [];
        } else {
          assert rounds[..k] == [o] + rest[..k - 1];
          assert ([o] + rest[..k - 1])[1..] == rest[..k - 1];
        }
      }
    }
  }

  /** The loop stops the moment a side reaches 2: no round of a game is played
      once either side has 2. */
  lemma {:induction false} StopsAtTwo(t: Table, s: Score, lines: seq<string>, draws: seq<Move>)
    requires InPlay(s)
    ensures var r := PlayRounds(t, s, lines, draws);
            r.Played? ==> EachRoundInPlay(s, r.game.rounds)
    decreases |draws|
  {
    if |draws| > 0 {
      match GetHumanMove(lines)
      case Exhausted =>
      case Read(None, rest) =>
      case Read(Some(human), rest) =>
        var o := Resolve(t, human, draws[0]);
        var s' := Award(s, o);
        if s'.human != 2 && s'.computer != 2 {
          StopsAtTwo(t, s', rest, draws[1..]);
          var r' := PlayRounds(t, s', rest, draws[1..]);
          if r'.Played? {
            assert ([o] + r'.game.rounds)[1..] == r'.game.rounds;
          }
        } else {
          assert [o][1..] == [];
        }
    }
  }

  /** One best-of-three from 0-0. */
  function PlayGame(t: Table, lines: seq<string>, draws: seq<Move>): (r: Played)
    ensures r.Played? ==> |r.draws| < |draws|
    ensures r.Played? && !r.game.quit ==> (r.game.score.human == 2) != (r.game.score.computer == 2)
    ensures r.Played? && r.game.quit ==> r.game.score.human < 2 && r.game.score.computer < 2
  {
    PlayRounds(t, Score(0, 0), lines, draws)
  }

  /** A game's score counts the rounds each side won. */
  lemma GameScoreCountsRounds(t: Table, lines: seq<string>, draws: seq<Move>)
    ensures var r := PlayGame(t, lines, draws);
            r.Played? ==> r.game.score.human == multiset(r.game.rounds)[HumanWins] &&
                          r.game.score.computer == multiset(r.game.rounds)[ComputerWins]
  {
    ScoreIsTally(t, Score(0, 0), lines, draws);
    var r := PlayGame(t, lines, draws);
    if r.Played? {
      TallyCountsWins(Score(0, 0), r.game.rounds);
    }
  }

  /** In a game from 0-0, the rounds played before each round leave both
      scores below 2: the game ends the moment a side reaches 2. */
  lemma GameStopsAtTwo(t: Table, lines: seq<string>, draws: seq<Move>)
    ensures var r := PlayGame(t, lines, draws);
            r.Played? ==> forall k :: 0 <= k < |r.game.rounds| ==>
                            InPlay(Tally(Score(0, 0), r.game.rounds[..k]))
  {
    StopsAtTwo(t, Score(0, 0), lines, draws);
    var r := PlayGame(t, lines, draws);
    if r.Played? {
      EachRoundInPlayPrefixes(Score(0, 0), r.game.rounds);
    }
  }

  datatype Side = Human | Computer

  /** Who is credited with a game: the human only on reaching 2 rounds; a
      human who quit concedes, even when ahead. */
  function Winner(g: Game): (w: Side)
    ensures w == Human <==> g.score.human == 2
  {
    if g.score.human == 2 then Human else Computer
  }

  /** Quitting hands the game to the computer whatever the round score. */
  lemma QuitConcedes(t: Table, lines: seq<string>, draws: seq<Move>)
    ensures var r := PlayGame(t, lines, draws);
            r.Played? && r.game.quit ==> Winner(r.game) == Computer
  {
  }

  /** The human leads 1-0 (Rock over Scissors), then quits: the computer is
      credited with the game. */
  lemma QuitWhileAheadConcedes(t: Table)
    ensures var r := PlayGame(t, ["1", "q"], [Scissors, Rock]);
            r.Played? && r.game.score == Score(1, 0) && r.game.quit && Winner(r.game) == Computer
  {
    ResolveExamples(t);
    assert GetHumanMove(["1", "q"]) == Read(Some(Rock), ["q"]);
    assert GetHumanMove(["q"]) == Read(None, []);
  }

  /** Games won by `side` among `games`. */
  function GamesWonBy(games: seq<Game>, side: Side): nat {
    if |games| == 0 then 0
    else (if Winner(games[0]) == side then 1 else 0) + GamesWonBy(games[1..], side)
  }

  /** Every game is won by exactly one side. */
  lemma {:induction false} GamesWonSplit(games: seq<Game>)
    ensures GamesWonBy(games, Human) + GamesWonBy(games, Computer) == |games|
  {
    if |games| > 0 {
      GamesWonSplit(games[1..]);
    }
  }

  /** The running totals `htotal` and `ctotal`. */
  datatype Totals = Totals(human: nat, computer: nat)

  /** Credit a finished or abandoned game to its winner. */
  function Credit(totals: Totals, g: Game): (totals': Totals)
    ensures totals'.human + totals'.computer == totals.human + totals.computer + 1
    ensures totals'.human == totals.human + (if g.score.human == 2 then 1 else 0)
  {
    match Winner(g)
    case Human => Totals(totals.human + 1, totals.computer)
    case Computer => Totals(totals.human, totals.computer + 1)
  }

  /** A session: the games played in order, the totals, and whether it ended
      because the user declined to play again (rather than input running out). */
  datatype Session = Session(totals: Totals, games: seq<Game>, finished: bool)

  /** The outer `do … while (playAgain(scanner))` loop, from `totals` on. */
  function Run(t: Table, totals: Totals, lines: seq<string>, draws: seq<Move>): (m: Session)
    ensures m.totals.human == totals.human + GamesWonBy(m.games, Human)
    ensures m.totals.computer == totals.computer + GamesWonBy(m.games, Computer)
    ensures forall i :: 0 <= i < |m.games| ==>
              m.games[i].score.human <= 2 && m.games[i].score.computer <= 2 &&
              (m.games[i].quit <==> InPlay(m.games[i].score))
    decreases |draws|
  {
    match PlayGame(t, lines, draws)
    case OutOfInput => Session(totals, [], false)
    case Played(g, lines', draws') =>
      var totals' := Credit(totals, g);
      match PlayAgain(lines')
      case Exhausted => Session(totals', [g], false)
      case Read(again, rest) =>
        if again then
          var m := Run(t, totals', rest, draws');
          assert ([g] + m.games)[1..] == m.games;
          Session(m.totals, [g] + m.games, m.finished)
        else
          Session(totals', [g], true)
  }

  /** `main`: both totals start at 0. At any point the human's total counts
      exactly the games in which the human reached 2 rounds, and the two
      totals together count every game played, abandoned ones included. */
  function PlayMatch(t: Table, lines: seq<string>, draws: seq<Move>): (m: Session)
    ensures m.totals.human == GamesWonBy(m.games, Human)
    ensures m.totals.human + m.totals.computer == |m.games|
  {
    var m := Run(t, Totals(0, 0), lines, draws);
    GamesWonSplit(m.games);
    m
  }

}
