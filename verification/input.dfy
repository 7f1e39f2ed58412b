/** The console side, with the `Scanner` replaced by the finite sequence of
    lines the user types. Every prompt consumes one line; a prompt with no
    line left is `Exhausted` (where `Scanner.nextLine` would throw). */
module Input {
  import opened Moves
  import opened Wrappers

  /** What a prompt yields: a value and the lines still unread. */
  datatype Read<+T> = Read(value: T, rest: seq<string>) | Exhausted

  /** The character a line answers with: its first one, or `default` when the
      line is empty. The rest of the line is ignored. */
  function FirstChar(line: string, default: char): (c: char)
    ensures |line| == 0 ==> c == default
    ensures |line| > 0 ==> c == line[0]
  {
    if |line| == 0 then default else line[0]
  }

  /** `prompt`: read one line and answer with its first character. */
  function Prompt(lines: seq<string>, default: char): (r: Read<char>)
    ensures r.Exhausted? <==> |lines| == 0
    ensures r.Read? ==> r.rest == lines[1..] && r.value == FirstChar(lines[0], default)
  {
    if |lines| == 0 then Exhausted else Read(FirstChar(lines[0], default), lines[1..])
  }

  /** What one answer to the move prompt means. */
  datatype Key = Quit | Choose(move: Move) | Reject(c: char)

  /** The checks `getHumanMove` makes on the answer: `'q'` quits; otherwise
      `(c - '0') - 1` must be a valid index into `Move.values()`. */
  function DecodeKey(c: char): (k: Key)
    ensures k == Quit <==> c == 'q'
    ensures k.Choose? <==> '1' <= c <= '5'
    ensures k.Choose? ==> Ordinal(k.move) == c as int - '1' as int
    ensures k.Reject? ==> k.c == c
  {
    if c == 'q' then Quit
    else
      var num := (c as int - '0' as int) - 1;
      if 0 <= num < MoveCount then Choose(MoveAt(num)) else Reject(c)
  }

  /** The menu key for a move: its ordinal plus one, as a digit. */
  function MenuKey(m: Move): (c: char)
    ensures DecodeKey(c) == Choose(m)
  {
    MoveAtOrdinal(m);
    (('1' as int) + Ordinal(m)) as char
  }

  /** Each move has exactly one key. */
  lemma MenuKeyUnique(c: char, m: Move)
    requires DecodeKey(c) == Choose(m)
    ensures c == MenuKey(m)
  {
  }

  /** The key an entire line stands for: an empty line counts as `'q'`. */
  function LineKey(line: string): Key {
    DecodeKey(FirstChar(line, 'q'))
  }

  /** The key a result of `getHumanMove` was read from. */
  function KeyOf(choice: Option<Move>): Key {
    match choice
    case None => Quit
    case Some(m) => Choose(m)
  }

  /** `getHumanMove`: prompt until a line quits or names a move; rejected lines
      are skipped. `None` stands for the source's `null`, the human quitting. */
  function GetHumanMove(lines: seq<string>): (r: Read<Option<Move>>)
    ensures r.Read? ==> |r.rest| < |lines|
    decreases |lines|
  {
    match Prompt(lines, 'q')
    case Exhausted => Exhausted
    case Read(c, rest) =>
      match DecodeKey(c)
      case Quit => Read(None, rest)
      case Choose(m) => Read(Some(m), rest)
      case Reject(_) => GetHumanMove(rest)
  }

  /** What `getHumanMove` read: it consumed a run of rejected lines and then
      the one line that quit or named the move it returns, and left the rest
      unread; it runs out of input only when every line is rejected. */
  lemma {:induction false} GetHumanMoveReads(lines: seq<string>)
    ensures var r := GetHumanMove(lines);
            r.Read? ==> r.rest == lines[|lines| - |r.rest|..] &&
                        LineKey(lines[|lines| - |r.rest| - 1]) == KeyOf(r.value) &&
                        forall i :: 0 <= i < |lines| - |r.rest| - 1 ==> LineKey(lines[i]).Reject?
    ensures GetHumanMove(lines).Exhausted? ==>
              forall i :: 0 <= i < |lines| ==> LineKey(lines[i]).Reject?
    decreases |lines|
  {
    if |lines| > 0 && LineKey(lines[0]).Reject? {
      GetHumanMoveReads(lines[1..]);
      var r := GetHumanMove(lines[1..]);
      if r.Read? {
        assert lines[1..][|lines| - 1 - |r.rest|..] == lines[|lines| - |r.rest|..];
      }
    }
  }

  /** An empty line at the move prompt quits, exactly like `q`. */
  lemma EmptyLineQuits(rest: seq<string>)
    ensures GetHumanMove([""] + rest) == Read(None, rest)
    ensures GetHumanMove(["q"] + rest) == Read(None, rest)
  {
    assert ([""] + rest)[1..] == rest;
    assert (["q"] + rest)[1..] == rest;
  }

  /** `playAgain`: the user stops only by answering with a line that starts
      with `'n'`; an empty line means yes, and so does anything else. */
  function PlayAgain(lines: seq<string>): (r: Read<bool>)
    ensures r.Exhausted? <==> |lines| == 0
    ensures r.Read? ==> r.rest == lines[1..]
    ensures r.Read? ==> (!r.value <==> |lines[0]| > 0 && lines[0][0] == 'n')
  {
    match Prompt(lines, 'y')
    case Exhausted => Exhausted
    case Read(c, rest) => Read('n' != c, rest)
  }

  /** An empty answer is treated exactly like an explicit `y`; an upper-case
      `N` does not stop either. */
  lemma EmptyAnswerMeansYes(rest: seq<string>)
    ensures PlayAgain([""] + rest) == PlayAgain(["y"] + rest) == Read(true, rest)
    ensures PlayAgain(["N"] + rest) == Read(true, rest)
    ensures PlayAgain(["no"] + rest) == Read(false, rest)
  {
    assert ([""] + rest)[1..] == rest;
    assert (["y"] + rest)[1..] == rest;
    assert (["N"] + rest)[1..] == rest;
    assert (["no"] + rest)[1..] == rest;
  }

}
