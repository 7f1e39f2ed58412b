# Rock, Paper, Scissors, Lizard, Spock — a Dafny model

This project models `RPSLS.java`, a console game in which a human plays
best-of-three games of Rock, Paper, Scissors, Lizard, Spock against a computer
that picks its moves at random. The model covers the whole of the game logic:

- the `Move` enum and its rule table, `willBeat`, and `beats`, which looks
  the opponent up with `Arrays.binarySearch` (modules `Moves`, `Search`, `Rules`);
- round resolution and the round score (module `Round`);
- reading answers from the user: `prompt`'s first-character-or-default rule,
  `getHumanMove`'s decoding of `1`..`5` and `q` with re-prompting, and
  `playAgain` (module `Input`);
- the best-of-three loop, the crediting of each game and the running totals
  of `main` (module `Engine`).

Input is a finite sequence of lines in place of the `Scanner`. The computer's
moves are a finite sequence of draws in place of `java.util.Random`, one draw
per round, taken before the human is asked. Every operation is then a pure
function of those sequences.

`Arrays.binarySearch` is modelled exactly as the JDK loop runs it, including
on an array that is not sorted, because the source's table has one such
array (see Findings). Enum constants compare by ordinal, so the search runs
over the ordinals of the array's moves. The rule table is a parameter
`Table = AsDeclared | Corrected`. `AsDeclared` is the lists exactly as the
source declares them. `Corrected` is the same lists in ordinal order. Every
engine property is proved for both tables.

The code does not check at start-up that the table is a tournament;
`Rules.DeclaredIsTournament` proves it of the declared table. `beats` is a
binary search, and that search is what is modelled.

## Model

| member | source | states |
|---|---|---|
| `Moves.Ordinal` | RPSLS.java:23-24 | every move has one of the five positions 0..4 of the declaration |
| `Moves.MoveAt` | RPSLS.java:106-108 | `Move.values()[i]` is the move whose ordinal is `i`, for each valid index |
| `Moves.MoveAtOrdinal` | RPSLS.java:106-108 | indexing `values()` by a move's ordinal gives back that move |
| `Search.SearchRangeBounds` | RPSLS.java:45-48 | on any array, sorted or not, a non-negative search result is an index inside the window that holds the key, and a negative one names an insertion point inside the window |
| `Search.Search` | RPSLS.java:45-48 | `binarySearch` never reports a false hit: a result `r >= 0` always has `a[r] == key`, even on an unsorted array |
| `Search.SearchRangeFinds` | RPSLS.java:45-48 | on a sorted array, while everything outside the window is on the correct side of the key, the search finds the key exactly when it is present |
| `Search.SearchRangeMisses` | RPSLS.java:45-48 | on a sorted array a miss returns `-(ip + 1)`, where everything before `ip` is smaller than the key and everything from `ip` on is larger |
| `Search.SearchSorted` | RPSLS.java:45-48 | for a sorted array, `binarySearch(a, key) >= 0` holds exactly when `key` is in `a`, and a miss encodes the insertion point |
| `Search.BinarySearch` | RPSLS.java:45-48 | the imperative JDK loop computes `Search` on every array; on a sorted array its invariants keep the key in the window, so a negative result means the key is absent |
| `Search.NarrowFromLeft` | RPSLS.java:45-48 | in a sorted array, a probe below the key excludes every index up to the probe |
| `Search.NarrowFromRight` | RPSLS.java:45-48 | in a sorted array, a probe above the key excludes every index from the probe on |
| `Rules.DeclaredIsTournament` | RPSLS.java:26-32 | each declared list has two distinct moves and never the move itself; for distinct x and y exactly one of them lists the other |
| `Rules.WillBeat` | RPSLS.java:34-38 | the array `beats` searches holds the same moves, with the same multiplicities, as the list given to `willBeat` |
| `Rules.OrdinalsHit` | RPSLS.java:45-48 | an ordinal match during the search is a match of the move itself |
| `Rules.DeclaredSortedExceptLizard` | RPSLS.java:26-32 | every declared list except Lizard's is in ordinal order, so binary search is only valid on four of the five lists |
| `Rules.Beats` | RPSLS.java:40-48 | `x.beats(y)` is never true unless `y` is in `x`'s declared list, with either table |
| `Rules.SortedSearchIsMembership` | RPSLS.java:45-48 | on a list in ordinal order, the search succeeds exactly for the listed moves |
| `Rules.CorrectedSorted` | RPSLS.java:26-32 | with Lizard's list reordered, every list is in ordinal order |
| `Rules.CorrectedBeatsIsDeclared` | RPSLS.java:40-48 | with sorted lists, `x.beats(y)` holds exactly when `y` is in `x`'s declared list, as the doc comment promises |
| `Rules.LizardMissesPaper` | RPSLS.java:30 | with the table as written, Lizard's list names Paper, yet neither `Lizard.beats(Paper)` nor `Paper.beats(Lizard)` holds |
| `Rules.AsDeclaredWrongOnlyForLizardPaper` | RPSLS.java:26-48 | with the table as written, `beats` agrees with the declared relation on every ordered pair except (Lizard, Paper) |
| `Round.Resolve` | RPSLS.java:138-146 | a round is a draw exactly when the moves are equal; a human win only happens when the human's move lists the computer's |
| `Round.ResolveFollowsTable` | RPSLS.java:138-146 | with the corrected table, the human wins exactly when the moves differ and the human's list names the computer's move; the computer wins exactly when the moves differ and the computer's list names the human's move |
| `Round.ResolveSwapsWinner` | RPSLS.java:138-146 | with the corrected table, for distinct moves, swapping the players swaps the winner |
| `Round.LizardPaperAlwaysComputer` | RPSLS.java:138-146 | with the table as written, Lizard against Paper goes to the computer whichever side holds Lizard |
| `Round.ResolveExamples` | RPSLS.java:138-146 | Rock beats Scissors, Rock loses to Paper, and Spock against Spock is a draw, with either table |
| `Round.Award` | RPSLS.java:138-146 | a draw leaves the score alone; any other outcome adds one point in total and never lowers either score |
| `Round.RoundScoresOnce` | RPSLS.java:138-146 | equal moves change neither score; different moves raise exactly one score by exactly 1, and the human's score rises exactly when the human won |
| `Round.TallyCountsWins` | RPSLS.java:128-148 | scoring a sequence of rounds one by one gives each side its starting score plus the number of rounds it won |
| `Input.DecodeKey` | RPSLS.java:100-110 | `q` quits; the characters `1`..`5` select the move with ordinal `c - '1'`; every other character is rejected |
| `Input.MenuKey` | RPSLS.java:59 | the menu number of a move, its ordinal plus one, decodes back to that move |
| `Input.MenuKeyUnique` | RPSLS.java:105-108 | only a move's own menu number selects it |
| `Input.GetHumanMove` | RPSLS.java:97-112 | when `getHumanMove` returns, it has consumed at least one line |
| `Input.GetHumanMoveReads` | RPSLS.java:97-112 | `getHumanMove` consumes a run of rejected lines, then one line that quits or names the returned move, and leaves the rest unread; it runs out of input only when every line is rejected |
| `Input.EmptyLineQuits` | RPSLS.java:100-104 | an empty line at the move prompt quits, just like `q` |
| `Input.PlayAgain` | RPSLS.java:88-90 | `playAgain` consumes one line and returns false exactly when that line starts with `n` |
| `Input.EmptyAnswerMeansYes` | RPSLS.java:88-90 | an empty answer continues like an explicit `y`; so does `N`; an answer starting with `n` stops |
| `Engine.PlayRounds` | RPSLS.java:128-148 | each game consumes draws; both round scores stay within 0..2 and never both reach 2; the human quit exactly when the game ended with both scores below 2 |
| `Engine.ScoreIsTally` | RPSLS.java:138-148 | a game's final score is its starting score with every recorded round scored in order |
| `Engine.EachRoundInPlayPrefixes` | RPSLS.java:147-148 | when every round starts in play, the score from the rounds before any given round leaves both sides below 2 |
| `Engine.StopsAtTwo` | RPSLS.java:130-148 | no round is played once either side has 2 |
| `Engine.PlayGame` | RPSLS.java:128-148 | a game that was not quit ends with exactly one side on 2; a game the human quit ends with both sides below 2 |
| `Engine.GameScoreCountsRounds` | RPSLS.java:128-148 | a game's score is the number of rounds each side won, starting from 0-0 |
| `Engine.GameStopsAtTwo` | RPSLS.java:128-148 | in a game from 0-0, both scores are below 2 before every round |
| `Engine.QuitConcedes` | RPSLS.java:133-137 | a game the human quits is credited to the computer, whatever the round score |
| `Engine.QuitWhileAheadConcedes` | RPSLS.java:151-156 | with either table, a human who leads 1-0 and then quits still concedes the game to the computer |
| `Engine.GamesWonSplit` | RPSLS.java:151-156 | every game counts towards exactly one side |
| `Engine.Credit` | RPSLS.java:150-156 | each game adds exactly 1 to the two totals together, and adds it to `htotal` exactly when the human reached 2 rounds |
| `Engine.Run` | RPSLS.java:124-163 | over a session, each total grows by the number of games that side won; every game played stays within 0..2 rounds per side and was quit exactly when it ended with both scores below 2 |
| `Engine.PlayMatch` | RPSLS.java:122-163 | starting from 0-0 totals, `htotal` counts exactly the games in which the human reached 2, and `htotal + ctotal` is the number of games played |

## Findings

| source | as written | input that shows it | evidently intended | confidence | as-written member | corrected member |
|---|---|---|---|---|---|---|
| RPSLS.java:30 | `Lizard.willBeat(Spock, Paper)` lists Spock before Paper. Spock has ordinal 4 and Paper ordinal 1. `beats` searches this list with `Arrays.binarySearch` (line 47), which requires ordinal order. | Lizard against Paper, either way round. The search probes Spock first, moves left and misses Paper. So `Lizard.beats(Paper)` is false. `Paper.beats(Lizard)` is false as well, so the computer wins the round whichever side played Lizard. | Lizard beats Paper: the declared list names Paper. Writing the list as `(Paper, Spock)` gives this. | high; not executed | `Rules.LizardMissesPaper` | `Rules.CorrectedBeatsIsDeclared` |

The game functions take the table as a parameter. Their properties hold for
both tables. `Round.LizardPaperAlwaysComputer` shows what the defect does to
a round. `Round.ResolveSwapsWinner` is the property that the defect breaks,
and it is proved for the corrected table.

## Left out

- Console output (`System.out.print`, `println`, `printf`) and the winner
  text at lines 158-160: these only present results.
- `buildOptions` and `MOVEPROMPT` (lines 53-64): they only build the text of
  the menu. The numbering they show is stated by `Input.MenuKey`.
- `java.util.Random`: replaced by a finite sequence of drawn moves. Whether
  the draws are uniform cannot be stated here.
- Running out of input: when the `Scanner` has no line left, `nextLine`
  throws and `main` ends with no summary. The model instead ends the session
  with `OutOfInput`, or with `finished == false`, keeping the totals reached
  so far. The real generator never runs out of draws. The model ends the
  session when the draw sequence is used up.
- Java `int` overflow of `hscore`, `cscore`, `htotal` and `ctotal`: the model
  uses unbounded naturals. Round scores never exceed 2. The totals would only
  wrap after 2^31 games.
- Java `char` is a UTF-16 code unit, while Dafny's `char` is a Unicode
  scalar value. The decoding only compares with `q` and the digits, so the
  difference has no effect.
