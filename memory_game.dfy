/**
 * The single-player game with integer cards (MemoryGame.java), stripped of
 * its Swing widgets. A click on card `i` is `Select(i)`; the Swing timer that
 * `checkMatch` schedules is the separate step `Resolve()`, which can only run
 * while the board is locked.
 */
module MemoryGameLogic {
  import opened Cells
  import Deck

  /** The card faces: the numbers 1 to 8. */
  function Faces(): seq<int>
  {
    [1, 2, 3, 4, 5, 6, 7, 8]
  }

  class MemoryGame {
    const values: array<int>
    const matched: array<bool>
    var firstIndex: int
    var secondIndex: int
    var lock: bool

    /**
     * The game invariant: the deck is a permutation of the paired faces; the
     * board is locked exactly while two distinct cards are picked, and then
     * both are matched or neither is; a single pick is never a matched cell;
     * the number of matched cells is even.
     */
    ghost predicate Valid()
      reads this, values, matched
    {
      && values.Length == 16 && matched.Length == 16
      && multiset(values[..]) == multiset(Deck.Doubled(Faces()))
      && -1 <= firstIndex < 16 && -1 <= secondIndex < 16
      && (lock <==> secondIndex != -1)
      && (lock ==>
            && firstIndex != -1 && firstIndex != secondIndex
            && matched[firstIndex] == (values[firstIndex] == values[secondIndex])
            && matched[secondIndex] == matched[firstIndex])
      && (!lock && firstIndex != -1 ==> !matched[firstIndex])
      && CountTrue(matched[..]) % 2 == 0
    }

    /** A fresh game: nothing matched, nothing picked, not locked. */
    ghost predicate NewGame()
      reads this, values, matched
    {
      && Valid()
      && (forall k :: 0 <= k < 16 ==> !matched[k])
      && firstIndex == -1 && secondIndex == -1 && !lock
    }

    /** Building the window deals the first game. */
    constructor (draws: seq<int>)
      requires Deck.ValidDraws(draws, 16)
      ensures fresh(values) && fresh(matched)
      ensures NewGame()
      ensures forall v :: multiset(values[..])[v] == if 1 <= v <= 8 then 2 else 0
    {
      values := new int[16];
      matched := new bool[16];
      new;
      InitGame(draws);
    }

    /** Deal a new game (also the Restart button): each of 1..8 twice, shuffled. */
    method InitGame(draws: seq<int>)
      requires values.Length == 16 && matched.Length == 16
      requires Deck.ValidDraws(draws, 16)
      modifies this, values, matched
      ensures NewGame()
      ensures forall v :: multiset(values[..])[v] == if 1 <= v <= 8 then 2 else 0
    {
      var list := Deck.MakePairs(Faces());
      list := Deck.Shuffle(list, draws);
      for i := 0 to 16
        invariant forall k :: 0 <= k < i ==> values[k] == list[k] && !matched[k]
      {
        values[i] := list[i];
        matched[i] := false;
      }
      firstIndex := -1;
      secondIndex := -1;
      lock := false;
      assert values[..] == list;
      CountTrueNone(matched[..]);
      Deck.PairDeck(values[..], Faces());
    }

    /** The guard of a click: the click on `i` is ignored. */
    predicate Ignores(i: int)
      reads this, matched
    {
      lock || !(0 <= i < matched.Length) || matched[i] || i == firstIndex
    }

    /**
     * A click on card `i`. Ignored while locked, on a matched card and on the
     * card already picked; otherwise it is the first pick, or the second pick,
     * which locks the board and checks for a match at once.
     */
    method Select(i: int)
      requires Valid()
      modifies this, matched
      ensures Valid()
      ensures old(Ignores(i)) ==> unchanged(this, matched)
      ensures !old(Ignores(i)) && old(firstIndex) == -1 ==>
                && firstIndex == i && secondIndex == -1 && !lock
                && unchanged(matched)
      ensures !old(Ignores(i)) && old(firstIndex) != -1 ==>
                && firstIndex == old(firstIndex) && secondIndex == i && lock
                && firstIndex != secondIndex
                && matched[..] == (if values[firstIndex] == values[i]
                                   then old(matched[..])[firstIndex := true][i := true]
                                   else old(matched[..]))
      ensures forall k :: 0 <= k < 16 && old(matched[k]) ==> matched[k]
    {
      if lock {
        return;
      }
      if 0 <= i < 16 {
        if matched[i] || i == firstIndex {
          return;
        }
        if firstIndex == -1 {
          firstIndex := i;
        } else {
          secondIndex := i;
          lock := true;
          CheckMatch();
        }
      }
    }

    /** Compare the two picks: equal values are matched on the spot. */
    method CheckMatch()
      requires values.Length == 16 && matched.Length == 16
      requires 0 <= firstIndex < 16 && 0 <= secondIndex < 16 && firstIndex != secondIndex
      requires !matched[firstIndex] && !matched[secondIndex]
      modifies matched
      ensures values[firstIndex] == values[secondIndex] ==>
                && matched[..] == old(matched[..])[firstIndex := true][secondIndex := true]
                && CountTrue(matched[..]) == old(CountTrue(matched[..])) + 2
      ensures values[firstIndex] != values[secondIndex] ==> matched[..] == old(matched[..])
    {
      if values[firstIndex] == values[secondIndex] {
        CountTrueFlipPair(matched[..], firstIndex, secondIndex);
        matched[firstIndex] := true;
        matched[secondIndex] := true;
      }
    }

    /**
     * The timer callback scheduled by `CheckMatch`. After a match it unlocks
     * and checks for a win; after a mismatch it hides both cards again and
     * unlocks. Either way the flags are left as `CheckMatch` set them.
     */
    method Resolve() returns (won: bool)
      requires Valid() && lock
      modifies this
      ensures Valid()
      ensures firstIndex == -1 && secondIndex == -1 && !lock
      ensures unchanged(matched)
      ensures won <==> old(values[firstIndex] == values[secondIndex]) && AllMatched(matched[..])
    {
      if values[firstIndex] == values[secondIndex] {
        lock := false;
        firstIndex := -1;
        secondIndex := -1;
        won := CheckWin();
      } else {
        firstIndex := -1;
        secondIndex := -1;
        lock := false;
        won := false;
      }
    }

    /** The win test: all 16 cells matched. */
    method CheckWin() returns (win: bool)
      requires matched.Length == 16
      ensures win <==> AllMatched(matched[..])
    {
      win := true;
      for k := 0 to 16
        invariant win <==> forall j :: 0 <= j < k ==> matched[j]
      {
        if !matched[k] {
          win := false;
        }
      }
    }
  }

  /**
   * Picking two cards with different values and letting the timer fire
   * returns the game to exactly the state it had before the first pick.
   */
  method MismatchRestoresBoard(game: MemoryGame, i: int, j: int)
    requires game.Valid() && !game.lock && game.firstIndex == -1
    requires 0 <= i < 16 && 0 <= j < 16 && i != j
    requires !game.matched[i] && !game.matched[j]
    requires game.values[i] != game.values[j]
    modifies game, game.matched
    ensures game.Valid()
    ensures game.matched[..] == old(game.matched[..])
    ensures game.firstIndex == -1 && game.secondIndex == -1 && !game.lock
  {
    game.Select(i);
    game.Select(j);
    var won := game.Resolve();
  }

  /** With 14 cells matched, picking the last pair clears the board and reports the win. */
  method LastPairWins(game: MemoryGame, i: int, j: int) returns (won: bool)
    requires game.Valid() && !game.lock && game.firstIndex == -1
    requires 0 <= i < 16 && 0 <= j < 16 && i != j
    requires !game.matched[i] && !game.matched[j]
    requires forall k :: 0 <= k < 16 && k != i && k != j ==> game.matched[k]
    requires game.values[i] == game.values[j]
    modifies game, game.matched
    ensures game.Valid() && AllMatched(game.matched[..])
    ensures won
  {
    game.Select(i);
    game.Select(j);
    won := game.Resolve();
  }

  /** A freshly built window accepts a first pick on any card. */
  method DealThenPick(draws: seq<int>, i: int) returns (game: MemoryGame)
    requires Deck.ValidDraws(draws, 16)
    requires 0 <= i < 16
    ensures fresh(game) && game.Valid()
    ensures game.firstIndex == i && game.secondIndex == -1 && !game.lock
    ensures forall k :: 0 <= k < 16 ==> !game.matched[k]
  {
    game := new MemoryGame(draws);
    game.Select(i);
  }
}
