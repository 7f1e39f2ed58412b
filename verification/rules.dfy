/** The rule table: which moves each move defeats, and `Move.beats`, which
    answers by binary search over the table entry of the attacking move. */
module Rules {
  import opened Moves
  import Search

  /** The lists handed to `willBeat` in the enum's static initializer, in the
      order they are written there. */
  function Declared(m: Move): seq<Move> {
    match m
    case Rock => [Scissors, Lizard]
    case Paper => [Rock, Spock]
    case Scissors => [Paper, Lizard]
    case Lizard => [Spock, Paper]
    case Spock => [Rock, Scissors]
  }

  /** The relation the table declares and `beats` documents: `x` defeats `y`
      when `y` is in `x`'s list. */
  predicate Defeats(x: Move, y: Move) {
    y in Declared(x)
  }

  /** The declared table is a tournament on the five moves: every move lists
      two distinct moves, never itself, and of two distinct moves exactly one
      lists the other. So each move also loses to exactly two. */
  lemma DeclaredIsTournament()
    ensures forall m :: |Declared(m)| == 2 && Declared(m)[0] != Declared(m)[1]
    ensures forall m :: !Defeats(m, m)
    ensures forall x, y :: x != y ==> (Defeats(x, y) <==> !Defeats(y, x))
  {
  }

  /** Which table `beats` searches: the lists as the source declares them, or
      the same lists put in ordinal order, as binary search requires. */
  datatype Table = AsDeclared | Corrected

  /** The array `beats` hands to `Arrays.binarySearch` for move `m`. */
  function WillBeat(t: Table, m: Move): (list: seq<Move>)
    ensures multiset(list) == multiset(Declared(m))
  {
    match t
    case AsDeclared => Declared(m)
    case Corrected => if m == Lizard then [Paper, Spock] else Declared(m)
  }

  /** The ordinals `compareTo` sees when the search probes `list`. */
  function Ordinals(list: seq<Move>): (keys: seq<int>)
    ensures |keys| == |list|
    ensures forall i :: 0 <= i < |list| ==> keys[i] == Ordinal(list[i])
  {
    seq(|list|, i requires 0 <= i < |list| => Ordinal(list[i]))
  }

  /** Searching by ordinal is searching for the move: ordinals are distinct. */
  lemma OrdinalsHit(list: seq<Move>, y: Move, i: int)
    requires 0 <= i < |list| && Ordinals(list)[i] == Ordinal(y)
    ensures list[i] == y
  {
    MoveAtOrdinal(list[i]);
    MoveAtOrdinal(y);
  }

  /** Every declared list but Lizard's is in ordinal order, so binary search
      is only entitled to work on four of the five. */
  lemma DeclaredSortedExceptLizard(m: Move)
    ensures Search.Sorted(Ordinals(Declared(m))) <==> m != Lizard
  {
    var keys := Ordinals(Declared(m));
    if m == Lizard {
      assert keys[0] == 4 && keys[1] == 1;
    }
  }

  /** `x.beats(y)`: binary search for `y` in the table entry of `x`. A hit is
      always genuine, whichever table is searched. */
  function Beats(t: Table, x: Move, y: Move): (b: bool)
    ensures b ==> Defeats(x, y)
  {
    var list := WillBeat(t, x);
    var r := Search.Search(Ordinals(list), Ordinal(y));
    if r >= 0 then
      OrdinalsHit(list, y, r);
      assert y in multiset(list);
      true
    else
      false
  }

  /** On a list in ordinal order the search finds exactly the listed moves. */
  lemma SortedSearchIsMembership(list: seq<Move>, y: Move)
    requires Search.Sorted(Ordinals(list))
    ensures Search.Search(Ordinals(list), Ordinal(y)) >= 0 <==> y in list
  {
    var keys := Ordinals(list);
    Search.SearchSorted(keys, Ordinal(y));
    var r := Search.Search(keys, Ordinal(y));
    if r >= 0 {
      OrdinalsHit(list, y, r);
    }
    if y in list {
      var i :| 0 <= i < |list| && list[i] == y;
      assert keys[i] == Ordinal(y);
    }
  }

  /** The corrected lists are all in ordinal order. */
  lemma CorrectedSorted(m: Move)
    ensures Search.Sorted(Ordinals(WillBeat(Corrected, m)))
  {
    var keys := Ordinals(WillBeat(Corrected, m));
    assert |keys| == 2 && keys[0] < keys[1];
  }

  /** With every list in ordinal order, `beats` is exactly the declared
      relation, as its doc comment promises. */
  lemma CorrectedBeatsIsDeclared(x: Move, y: Move)
    ensures Beats(Corrected, x, y) <==> Defeats(x, y)
  {
    var list := WillBeat(Corrected, x);
    CorrectedSorted(x);
    SortedSearchIsMembership(list, y);
    assert y in list <==> y in multiset(Declared(x));
  }

  /** The table as written: the search misses Paper in Lizard's list
      `{Spock, Paper}`, and Paper's own list does not name Lizard either, so
      neither move beats the other although the table says Lizard wins. */
  lemma LizardMissesPaper()
    ensures Defeats(Lizard, Paper)
    ensures !Beats(AsDeclared, Lizard, Paper)
    ensures !Beats(AsDeclared, Paper, Lizard)
  {
    assert Search.Search(Ordinals([Spock, Paper]), 1) == -1;
  }

  /** That is the only pair the unsorted list gets wrong. */
  lemma AsDeclaredWrongOnlyForLizardPaper(x: Move, y: Move)
    requires (x, y) != (Lizard, Paper)
    ensures Beats(AsDeclared, x, y) <==> Defeats(x, y)
  {
    if x == Lizard {
      assert Ordinals(Declared(Lizard)) == [4, 1];
      if y == Spock {
        assert Search.Search([4, 1], 4) == 0;
      } else {
        assert Search.Search([4, 1], Ordinal(y)) == -1;
      }
    } else {
      assert WillBeat(AsDeclared, x) == WillBeat(Corrected, x);
      CorrectedBeatsIsDeclared(x, y);
    }
  }

}
