/**
 * The two-player (or player against CPU) game with shape cards
 * (ShapeMemoryGame.java), stripped of its Swing widgets and icon painting.
 * A card is a shape paired with a colour; cards are compared by shape only.
 * A click is `ActionPerformed(i)`, a pick from either the user or the CPU is
 * `HandleSelection(i)`, and the timer that `checkMatch` schedules is the
 * separate step `Resolve()`.
 */
module ShapeMemoryGameLogic {
  import opened Cells
  import Deck

  datatype Option<T> = None | Some(value: T)

  datatype ShapeType = Hexagon | Square | Triangle | Diamond | Cross | Star | Ring | Oval

  /** A colour as `java.awt.Color` holds it: red, green and blue in 0..255. */
  datatype Rgb = Rgb(red: int, green: int, blue: int)

  /** A card face: what to draw and in which colour. */
  datatype ShapeIcon = ShapeIcon(shape: ShapeType, colour: Rgb)

  /** The end-of-game announcement. */
  datatype Outcome =
    | Player1Wins  // "Player 1 Wins!"
    | Player2Wins  // "Player 2 Wins!"
    | CpuWins      // "CPU Wins!"
    | Draw         // "Draw!"

  /** The shape types in declaration order. */
  function ShapeTypes(): seq<ShapeType>
  {
    [Hexagon, Square, Triangle, Diamond, Cross, Star, Ring, Oval]
  }

  /** RED, CYAN, YELLOW, MAGENTA, ORANGE, PINK, WHITE and (170, 170, 255). */
  function Colours(): seq<Rgb>
  {
    [Rgb(255, 0, 0), Rgb(0, 255, 255), Rgb(255, 255, 0), Rgb(255, 0, 255),
     Rgb(255, 200, 0), Rgb(255, 175, 175), Rgb(255, 255, 255), Rgb(170, 170, 255)]
  }

  /** The eight card faces: the i-th shape type in the i-th colour. */
  function Palette(): (p: seq<ShapeIcon>)
    ensures |p| == 8
  {
    seq(8, k requires 0 <= k < 8 => ShapeIcon(ShapeTypes()[k], Colours()[k]))
  }

  /** Shapes and colours are paired one-to-one in the palette. */
  lemma PaletteOneToOne()
    ensures forall a, b :: 0 <= a < 8 && 0 <= b < 8 ==>
              && (Palette()[a].shape == Palette()[b].shape <==> a == b)
              && (Palette()[a].colour == Palette()[b].colour <==> a == b)
    ensures Deck.Distinct(Palette())
  {
    var p := Palette();
    var t, c := ShapeTypes(), Colours();
    assert forall k :: 0 <= k < 8 ==> p[k] == ShapeIcon(t[k], c[k]);
    assert p[0] == ShapeIcon(Hexagon, Rgb(255, 0, 0));
    assert p[1] == ShapeIcon(Square, Rgb(0, 255, 255));
    assert p[2] == ShapeIcon(Triangle, Rgb(255, 255, 0));
    assert p[3] == ShapeIcon(Diamond, Rgb(255, 0, 255));
    assert p[4] == ShapeIcon(Cross, Rgb(255, 200, 0));
    assert p[5] == ShapeIcon(Star, Rgb(255, 175, 175));
    assert p[6] == ShapeIcon(Ring, Rgb(255, 255, 255));
    assert p[7] == ShapeIcon(Oval, Rgb(170, 170, 255));
  }

  /** In a deck dealt from the palette, two cards with the same shape are the same card. */
  lemma ShapeDecidesCard(deck: seq<ShapeIcon>)
    requires multiset(deck) == multiset(Deck.Doubled(Palette()))
    ensures forall a, b :: 0 <= a < |deck| && 0 <= b < |deck| ==>
              (deck[a].shape == deck[b].shape <==> deck[a] == deck[b])
  {
    Deck.DoubledMultiset(Palette());
    PaletteOneToOne();
    forall a, b | 0 <= a < |deck| && 0 <= b < |deck| && deck[a].shape == deck[b].shape
      ensures deck[a] == deck[b]
    {
      assert deck[a] in multiset(deck) && deck[b] in multiset(deck);
      assert deck[a] in Palette() && deck[b] in Palette();
      var ia :| 0 <= ia < 8 && Palette()[ia] == deck[a];
      var ib :| 0 <= ib < 8 && Palette()[ib] == deck[b];
    }
  }

  /** The winner by strict score comparison; equal scores are a draw. */
  function Winner(player1Score: int, player2Score: int, singlePlayer: bool): (o: Outcome)
    ensures o == Player1Wins <==> player1Score > player2Score
    ensures o == Player2Wins <==> player2Score > player1Score && !singlePlayer
    ensures o == CpuWins <==> player2Score > player1Score && singlePlayer
    ensures o == Draw <==> player1Score == player2Score
  {
    if player1Score > player2Score then Player1Wins
    else if player2Score > player1Score then (if singlePlayer then CpuWins else Player2Wins)
    else Draw
  }

  class ShapeMemoryGame {
    const cardIcons: array<ShapeIcon>
    const matched: array<bool>
    var firstIndex: int
    var secondIndex: int
    var lock: bool
    var player1Score: int
    var player2Score: int
    var currentPlayer: int
    var isSinglePlayer: bool

    /**
     * The game invariant: the deck is a permutation of the paired palette;
     * while locked two distinct cards are picked and both are matched or
     * neither is; a single pick is never a matched cell; the player is 1 or 2;
     * and the two scores together count the matched pairs.
     */
    ghost predicate Valid()
      reads this, cardIcons, matched
    {
      && cardIcons.Length == 16 && matched.Length == 16
      && multiset(cardIcons[..]) == multiset(Deck.Doubled(Palette()))
      && -1 <= firstIndex < 16 && -1 <= secondIndex < 16
      && (lock ==>
            && firstIndex != -1 && secondIndex != -1 && firstIndex != secondIndex
            && matched[firstIndex] == (cardIcons[firstIndex].shape == cardIcons[secondIndex].shape)
            && matched[secondIndex] == matched[firstIndex])
      && (!lock && firstIndex != -1 ==> !matched[firstIndex])
      && (currentPlayer == 1 || currentPlayer == 2)
      && 0 <= player1Score && 0 <= player2Score
      && 2 * (player1Score + player2Score) == CountTrue(matched[..])
    }

    /** A fresh game: nothing matched, no scores, player 1 to move, nothing picked. */
    ghost predicate NewGame()
      reads this, cardIcons, matched
    {
      && Valid()
      && (forall k :: 0 <= k < 16 ==> !matched[k])
      && player1Score == 0 && player2Score == 0 && currentPlayer == 1
      && firstIndex == -1 && !lock
    }

    /** Building the window, followed by the menu choice of a mode. */
    constructor (singlePlayer: bool, draws: seq<int>)
      requires Deck.ValidDraws(draws, 16)
      ensures fresh(cardIcons) && fresh(matched)
      ensures NewGame() && isSinglePlayer == singlePlayer
    {
      cardIcons := new ShapeIcon[16];
      matched := new bool[16];
      firstIndex := -1;
      secondIndex := -1;
      new;
      StartGame(singlePlayer, draws);
    }

    /** A menu button: set the mode, then deal. */
    method StartGame(singlePlayer: bool, draws: seq<int>)
      requires cardIcons.Length == 16 && matched.Length == 16
      requires -1 <= secondIndex < 16
      requires Deck.ValidDraws(draws, 16)
      modifies this, cardIcons, matched
      ensures NewGame() && isSinglePlayer == singlePlayer
    {
      isSinglePlayer := singlePlayer;
      InitGameLogic(draws);
    }

    /**
     * Deal a new game: each palette card twice, shuffled; reset scores and
     * turn. `secondIndex` is left as it was.
     */
    method InitGameLogic(draws: seq<int>)
      requires cardIcons.Length == 16 && matched.Length == 16
      requires -1 <= secondIndex < 16
      requires Deck.ValidDraws(draws, 16)
      modifies this, cardIcons, matched
      ensures NewGame()
      ensures forall x :: multiset(cardIcons[..])[x] == if x in Palette() then 2 else 0
      ensures forall a, b :: 0 <= a < 16 && 0 <= b < 16 ==>
                (cardIcons[a].shape == cardIcons[b].shape <==> cardIcons[a] == cardIcons[b])
      ensures isSinglePlayer == old(isSinglePlayer) && secondIndex == old(secondIndex)
    {
      var iconList := Deck.MakePairs(Palette());
      iconList := Deck.Shuffle(iconList, draws);
      for i := 0 to 16
        invariant forall k :: 0 <= k < i ==> cardIcons[k] == iconList[k] && !matched[k]
        invariant secondIndex == old(secondIndex) && isSinglePlayer == old(isSinglePlayer)
      {
        cardIcons[i] := iconList[i];
        matched[i] := false;
      }
      player1Score := 0;
      player2Score := 0;
      currentPlayer := 1;
      firstIndex := -1;
      lock := false;
      assert cardIcons[..] == iconList;
      CountTrueNone(matched[..]);
      PaletteOneToOne();
      Deck.PairDeck(cardIcons[..], Palette());
      ShapeDecidesCard(cardIcons[..]);
    }

    /** Input from the user is ignored while locked or while the CPU has the turn. */
    predicate Blocked()
      reads this
    {
      lock || (isSinglePlayer && currentPlayer == 2)
    }

    /** The guard of a pick: the pick of `i` is ignored. */
    predicate Ignores(i: int)
      reads this, matched
    {
      !(0 <= i < matched.Length) || matched[i] || i == firstIndex
    }

    /**
     * What a pick of card `i` does, between the state before and after it:
     * nothing when ignored; the first pick; or the second pick, which locks
     * and, on equal shapes, matches both cards and credits the player to move.
     */
    twostate predicate Picked(i: int)
      reads this, cardIcons, matched
    {
      && cardIcons.Length == 16 && matched.Length == 16
      && (old(Ignores(i)) ==> unchanged(this, matched))
      && (!old(Ignores(i)) && old(firstIndex) == -1 ==>
            && firstIndex == i && secondIndex == old(secondIndex) && !lock
            && matched[..] == old(matched[..])
            && player1Score == old(player1Score) && player2Score == old(player2Score))
      && (!old(Ignores(i)) && old(firstIndex) != -1 ==>
            && firstIndex == old(firstIndex) && secondIndex == i && lock
            && 0 <= firstIndex < 16 && firstIndex != secondIndex
            && (if cardIcons[firstIndex].shape == cardIcons[i].shape then
                  && matched[..] == old(matched[..])[firstIndex := true][i := true]
                  && (if currentPlayer == 1
                      then player1Score == old(player1Score) + 1 && player2Score == old(player2Score)
                      else player2Score == old(player2Score) + 1 && player1Score == old(player1Score))
                else
                  && matched[..] == old(matched[..])
                  && player1Score == old(player1Score) && player2Score == old(player2Score)))
      && currentPlayer == old(currentPlayer) && isSinglePlayer == old(isSinglePlayer)
    }

    /** A click on card `i` by the user. */
    method ActionPerformed(i: int)
      requires Valid()
      modifies this, matched
      ensures Valid()
      ensures old(Blocked()) ==> unchanged(this, matched)
      ensures !old(Blocked()) ==> Picked(i)
      ensures forall k :: 0 <= k < 16 && old(matched[k]) ==> matched[k]
    {
      if lock || (isSinglePlayer && currentPlayer == 2) {
        return;
      }
      HandleSelection(i);
    }

    /** A pick of card `i`, by the user's click or by the CPU's timer. */
    method HandleSelection(i: int)
      requires Valid() && !lock
      modifies this, matched
      ensures Valid()
      ensures Picked(i)
      ensures forall k :: 0 <= k < 16 && old(matched[k]) ==> matched[k]
    {
      if 0 <= i < 16 {
        if matched[i] || i == firstIndex {
          return;
        }
        if firstIndex == -1 {
          firstIndex := i;
        } else {
          secondIndex := i;
          lock := true;
          CheckMatch();
        }
      }
    }

    /** Compare the two picks by shape: a match is recorded and scored on the spot. */
    method CheckMatch()
      requires cardIcons.Length == 16 && matched.Length == 16
      requires 0 <= firstIndex < 16 && 0 <= secondIndex < 16 && firstIndex != secondIndex
      requires !matched[firstIndex] && !matched[secondIndex]
      requires currentPlayer == 1 || currentPlayer == 2
      modifies this`player1Score, this`player2Score, matched
      ensures cardIcons[firstIndex].shape == cardIcons[secondIndex].shape ==>
                && matched[..] == old(matched[..])[firstIndex := true][secondIndex := true]
                && CountTrue(matched[..]) == old(CountTrue(matched[..])) + 2
                && (if currentPlayer == 1
                    then player1Score == old(player1Score) + 1 && player2Score == old(player2Score)
                    else player2Score == old(player2Score) + 1 && player1Score == old(player1Score))
      ensures cardIcons[firstIndex].shape != cardIcons[secondIndex].shape ==>
                && matched[..] == old(matched[..])
                && player1Score == old(player1Score) && player2Score == old(player2Score)
    {
      if cardIcons[firstIndex].shape == cardIcons[secondIndex].shape {
        CountTrueFlipPair(matched[..], firstIndex, secondIndex);
        matched[firstIndex] := true;
        matched[secondIndex] := true;
        if currentPlayer == 1 {
          player1Score := player1Score + 1;
        } else {
          player2Score := player2Score + 1;
        }
      }
    }

    /**
     * The timer callback scheduled by `CheckMatch`. After a match it unlocks
     * and checks for the end of the game; after a mismatch it hides both cards,
     * passes the turn and unlocks. `over` is the announcement, if the game
     * ended; `cpuNext` says whether the callback then starts a CPU move.
     */
    method Resolve() returns (over: Option<Outcome>, cpuNext: bool)
      requires Valid() && lock
      modifies this
      ensures Valid()
      ensures firstIndex == -1 && !lock && secondIndex == old(secondIndex)
      ensures unchanged(matched)
      ensures player1Score == old(player1Score) && player2Score == old(player2Score)
      ensures isSinglePlayer == old(isSinglePlayer)
      ensures old(cardIcons[firstIndex].shape == cardIcons[secondIndex].shape) ==>
                && currentPlayer == old(currentPlayer)
                && (over.Some? <==> AllMatched(matched[..]))
                && (over.Some? ==> over.value == Winner(player1Score, player2Score, isSinglePlayer))
                && (cpuNext <==> over.None? && isSinglePlayer && currentPlayer == 2)
      ensures old(cardIcons[firstIndex].shape != cardIcons[secondIndex].shape) ==>
                && currentPlayer == 3 - old(currentPlayer)
                && over.None?
                && (cpuNext <==> isSinglePlayer && currentPlayer == 2)
    {
      if cardIcons[firstIndex].shape == cardIcons[secondIndex].shape {
        lock := false;
        firstIndex := -1;
        over := CheckWin();
        cpuNext := over.None? && isSinglePlayer && currentPlayer == 2;
      } else {
        currentPlayer := if currentPlayer == 1 then 2 else 1;
        firstIndex := -1;
        lock := false;
        over := None;
        cpuNext := isSinglePlayer && currentPlayer == 2;
      }
    }

    /** The indices of the unmatched cells, in increasing order. */
    method AvailableCells() returns (available: seq<int>)
      requires matched.Length == 16
      ensures |available| == 16 - CountTrue(matched[..])
      ensures forall k :: k in available <==> 0 <= k < 16 && !matched[k]
      ensures forall a, b :: 0 <= a < b < |available| ==> available[a] < available[b]
    {
      available := [];
      for i := 0 to 16
        invariant |available| == i - CountTrue(matched[..i])
        invariant forall k :: k in available <==> 0 <= k < i && !matched[k]
        invariant forall a, b :: 0 <= a < b < |available| ==> available[a] < available[b]
        invariant forall a :: 0 <= a < |available| ==> available[a] < i
      {
        assert matched[..i + 1][..i] == matched[..i];
        if !matched[i] {
          available := available + [i];
        }
      }
      assert matched[..16] == matched[..];
    }

    /**
     * The CPU's choice: nothing when fewer than two cells are unmatched,
     * otherwise the first two of the shuffled unmatched cells, which are two
     * distinct unmatched cells.
     */
    method CpuMove(draws: seq<int>) returns (pick: Option<(int, int)>)
      requires matched.Length == 16
      requires Deck.ValidDraws(draws, 16)
      ensures pick.None? <==> 16 - CountTrue(matched[..]) < 2
      ensures pick.Some? ==>
                && 0 <= pick.value.0 < 16 && 0 <= pick.value.1 < 16
                && pick.value.0 != pick.value.1
                && !matched[pick.value.0] && !matched[pick.value.1]
    {
      var available := AvailableCells();
      if |available| < 2 {
        return None;
      }
      var shuffled := Deck.Shuffle(available, draws);
      var c1, c2 := shuffled[0], shuffled[1];
      assert shuffled == [c1, c2] + shuffled[2..];
      assert c1 in multiset(shuffled) && c2 in multiset(shuffled);
      assert c1 in available && c2 in available;
      assert c1 != c2 by {
        Deck.DistinctMultiplicity(available, c1);
        assert multiset(shuffled)[c1] == multiset([c1, c2])[c1] + multiset(shuffled[2..])[c1];
      }
      return Some((c1, c2));
    }

    /**
     * The CPU's move, from the choice and its two timer callbacks run in
     * order as one step: choose, pick the first cell, then the second. The CPU
     * moves exactly when at least two cells are unmatched; a move always ends
     * locked on two cells that were unmatched, and a match credits the CPU alone.
     */
    method PlayCpuTurn(draws: seq<int>) returns (pick: Option<(int, int)>)
      requires Valid() && !lock && firstIndex == -1
      requires isSinglePlayer && currentPlayer == 2
      requires Deck.ValidDraws(draws, 16)
      modifies this, matched
      ensures Valid()
      ensures pick.None? <==> 16 - old(CountTrue(matched[..])) < 2
      ensures pick.None? ==> unchanged(this, matched)
      ensures pick.Some? ==>
                && 0 <= pick.value.0 < 16 && 0 <= pick.value.1 < 16
                && !old(matched[..])[pick.value.0] && !old(matched[..])[pick.value.1]
      ensures pick.Some? ==> lock && firstIndex == pick.value.0 && secondIndex == pick.value.1
      ensures pick.Some? ==>
                var (a, b) := pick.value;
                var hit := cardIcons[a].shape == cardIcons[b].shape;
                && matched[..] == (if hit then old(matched[..])[a := true][b := true] else old(matched[..]))
                && player1Score == old(player1Score)
                && player2Score == old(player2Score) + (if hit then 1 else 0)
      ensures currentPlayer == 2 && isSinglePlayer
    {
      pick := CpuMove(draws);
      if pick.Some? {
        HandleSelection(pick.value.0);
        HandleSelection(pick.value.1);
      }
    }

    /** The end-of-game test, with the announcement when every cell is matched. */
    method CheckWin() returns (over: Option<Outcome>)
      requires matched.Length == 16
      ensures over.Some? <==> AllMatched(matched[..])
      ensures over.Some? ==> over.value == Winner(player1Score, player2Score, isSinglePlayer)
    {
      for k := 0 to 16
        invariant forall j :: 0 <= j < k ==> matched[j]
      {
        if !matched[k] {
          return None;
        }
      }
      return Some(Winner(player1Score, player2Score, isSinglePlayer));
    }

    /**
     * Unmatched cells always come in pairs, so the CPU finds fewer than two
     * only on a cleared board.
     */
    lemma CpuStuckOnlyWhenCleared()
      requires Valid()
      ensures 16 - CountTrue(matched[..]) < 2 <==> AllMatched(matched[..])
    {
      CountTrueAll(matched[..]);
    }

    /** At the end of a game the scores add up to the eight pairs, so a draw is 4 to 4. */
    lemma ScoresAtGameEnd()
      requires Valid() && AllMatched(matched[..])
      ensures player1Score + player2Score == 8
      ensures Winner(player1Score, player2Score, isSinglePlayer) == Draw <==> player1Score == 4
    {
      CountTrueAll(matched[..]);
    }
  }

  /**
   * Two players: player 1 picks two cards of different shapes and the timer
   * fires; the turn passes to player 2, nothing is scored, nothing is matched.
   */
  method TwoPlayerMismatch(game: ShapeMemoryGame, i: int, j: int)
    requires game.Valid() && !game.isSinglePlayer && !game.lock
    requires game.firstIndex == -1 && game.currentPlayer == 1
    requires 0 <= i < 16 && 0 <= j < 16 && i != j
    requires !game.matched[i] && !game.matched[j]
    requires game.cardIcons[i].shape != game.cardIcons[j].shape
    modifies game, game.matched
    ensures game.Valid()
    ensures game.currentPlayer == 2 && game.firstIndex == -1 && !game.lock
    ensures game.player1Score == old(game.player1Score) && game.player2Score == old(game.player2Score)
    ensures game.matched[..] == old(game.matched[..])
  {
    game.ActionPerformed(i);
    game.ActionPerformed(j);
    var over, cpuNext := game.Resolve();
  }

  /**
   * Against the CPU: player 1 picks two cards of different shapes and the
   * timer fires; the turn passes to the CPU, which then picks two cards.
   */
  method CpuAnswersMismatch(game: ShapeMemoryGame, i: int, j: int, draws: seq<int>)
    returns (pick: Option<(int, int)>)
    requires game.Valid() && game.isSinglePlayer && !game.lock
    requires game.firstIndex == -1 && game.currentPlayer == 1
    requires 0 <= i < 16 && 0 <= j < 16 && i != j
    requires !game.matched[i] && !game.matched[j]
    requires game.cardIcons[i].shape != game.cardIcons[j].shape
    requires Deck.ValidDraws(draws, 16)
    modifies game, game.matched
    ensures game.Valid() && game.lock && game.currentPlayer == 2
    ensures pick.Some?
    ensures game.player1Score == old(game.player1Score)
  {
    game.ActionPerformed(i);
    game.ActionPerformed(j);
    var over, cpuNext := game.Resolve();
    assert cpuNext;
    CountTrueAll(game.matched[..]);
    assert !game.matched[..][i];
    pick := game.PlayCpuTurn(draws);
  }
}
