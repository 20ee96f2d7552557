# Memory game: a verified model of the game-state machine

This project models the game logic of two Swing memory-matching games in
Dafny. The board has 16 cards. A turn reveals two cards and compares them.
A matching pair stays face up; a mismatch is hidden again. The game is won
when every card is matched.

- `MemoryGame.java` is a single-player game with cards numbered 1..8, each
  twice. Its model is the class `MemoryGameLogic.MemoryGame`, with the
  source's fields: `values` and `matched` as arrays, and `firstIndex`,
  `secondIndex` and `lock`.
- `ShapeMemoryGame.java` is a game for two players, or one player against
  the CPU. Its cards are eight shapes, each in its own colour. Its model
  is the class `ShapeMemoryGameLogic.ShapeMemoryGame`. That class adds the
  two scores, `currentPlayer` and `isSinglePlayer`, and a `Winner`
  function for the end-of-game announcement.
- Two modules are shared. `Deck` builds the paired base list and shuffles
  it. `Cells` counts matched flags.

A click on a card becomes a method call with the card's index. Clicks on
anything other than a card do nothing. The two timer callbacks that
`checkMatch` schedules become one method, `Resolve()`, which may only run
while the board is locked. So "select" and "resolve" are separate atomic
steps, as they are on the Swing event thread. The CPU's move is modelled
differently: `cpuMove` schedules two timers of its own, one for each pick.
`PlayCpuTurn` runs the CPU's choice and both picks as a single step.

`Collections.shuffle` on the 16-element `ArrayList` runs the swap loop
`for i := size down to 2: swap(list, i - 1, rnd.nextInt(i))`. `Deck.Shuffle`
runs this loop. The random numbers are a parameter: `draws[i - 1]` is the
number drawn from `[0, i)`. The CPU's random choice works the same way:
`cpuMove` shuffles the list of unmatched cells with the same loop and
parameter.

Two details of the code shape the model:

- `checkMatch` runs inside the click that makes the second pick. So a
  match sets both `matched` flags, and in the shape game adds the point,
  at the second pick. The timer callback only unlocks the board, clears
  the pick, checks for a win after a match, and passes the turn after a
  mismatch.
- `ShapeMemoryGame.java` never resets `secondIndex`. Neither
  `initGameLogic` nor the match callback touches it, so in the model it
  keeps its stale value. The invariant constrains it only while the board
  is locked.

Each class has a `Valid()` invariant that every step preserves:
- the deck is a permutation of the paired faces;
- the board is locked exactly while two distinct cards are picked, and
  then both are matched or neither is;
- a single pick is never a matched card;
- the number of matched cards is even. In the shape game it is twice the
  sum of the two scores.

The selection therefore always holds 0, 1 or 2 cards. It is `firstIndex`
and, while locked, `secondIndex`.

## Model

| member | source | states |
|---|---|---|
| `Deck.MakePairs` | MemoryGame.java:80-84 | the list built by the loop is the base list: every face twice, in order |
| `Deck.Shuffle` | MemoryGame.java:85 | for any legal draws from the random source, the shuffled list has the same length and is a permutation of the input |
| `Deck.DoubledMultiset` | ShapeMemoryGame.java:143-146 | the base list holds each item exactly twice as often as the item list does |
| `Deck.PairDeck` | MemoryGame.java:80-88 | any permutation of the base list of distinct items has 16 cards: each item occurs exactly twice and nothing else occurs |
| `Cells.CountTrueFlipPair` | MemoryGame.java:129-130 | matching two distinct unmatched cells raises the number of matched cells by exactly two |
| `Cells.CountTrueAll` | MemoryGame.java:167-171 | the number of matched cells equals the board size exactly when every cell is matched |
| `MemoryGameLogic.MemoryGame.constructor` | MemoryGame.java:19-69 | the window starts with a freshly dealt game, in `values` and `matched` arrays of its own (newly allocated, shared with no other object) |
| `MemoryGameLogic.MemoryGame.InitGame` | MemoryGame.java:79-99 | after dealing, each of 1..8 occurs exactly twice and nothing else does; no card is matched; both indices are -1; the board is unlocked; the invariant holds |
| `MemoryGameLogic.MemoryGame.Select` | MemoryGame.java:101-119 | when locked, on a matched card, on the already picked card, or on no card, nothing changes. The first pick sets `firstIndex` and stays unlocked. The second pick sets `secondIndex` to a different card and locks. Equal values mark exactly those two cards matched and leave every other flag alone. Matched flags never go back to false |
| `MemoryGameLogic.MemoryGame.CheckMatch` | MemoryGame.java:126-130 | equal values set exactly the two picked flags, so the matched count grows by two; different values change no flag |
| `MemoryGameLogic.MemoryGame.Resolve` | MemoryGame.java:139-156 | after either callback both indices are -1 and the board is unlocked. No matched flag changes. A win is reported exactly when the pair matched and all 16 cards are matched |
| `MemoryGameLogic.MemoryGame.CheckWin` | MemoryGame.java:167-176 | the flag is true exactly when all 16 cards are matched |
| `MemoryGameLogic.MismatchRestoresBoard` | MemoryGame.java:147-156 | picking two cards with different values and letting the callback fire restores the state before the first pick: same flags, both indices -1, unlocked |
| `MemoryGameLogic.DealThenPick` | MemoryGame.java:19-69 | a newly built window accepts a first pick on any card: the pick is recorded, the board stays unlocked and nothing is matched |
| `MemoryGameLogic.LastPairWins` | MemoryGame.java:127-144 | with 14 cards matched, picking the remaining pair matches all 16 cards and reports the win |
| `ShapeMemoryGameLogic.PaletteOneToOne` | ShapeMemoryGame.java:140-145 | the eight palette cards are distinct, and shapes pair one-to-one with colours |
| `ShapeMemoryGameLogic.ShapeDecidesCard` | ShapeMemoryGame.java:143-150 | in any deal from the palette, two cards with the same shape are the same card, so comparing by shape alone compares whole cards |
| `ShapeMemoryGameLogic.Winner` | ShapeMemoryGame.java:262-263 | player 1 wins exactly on a strictly higher score. Player 2 (or the CPU, in single-player mode) wins exactly on a strictly higher score. The game is a draw exactly on equal scores |
| `ShapeMemoryGameLogic.ShapeMemoryGame.constructor` | ShapeMemoryGame.java:36-51 | a new window, once a mode is chosen from the menu, holds a freshly dealt game in that mode, in `cardIcons` and `matched` arrays of its own |
| `ShapeMemoryGameLogic.ShapeMemoryGame.StartGame` | ShapeMemoryGame.java:127-131 | a menu button sets the mode and then deals a fresh game |
| `ShapeMemoryGameLogic.ShapeMemoryGame.InitGameLogic` | ShapeMemoryGame.java:138-164 | after dealing, each palette card occurs exactly twice and nothing else does, and equal shapes mean equal cards. Both scores are 0, player 1 is to move, `firstIndex` is -1 and the board is unlocked. The mode and `secondIndex` are left alone |
| `ShapeMemoryGameLogic.ShapeMemoryGame.ActionPerformed` | ShapeMemoryGame.java:181-185 | a click changes nothing while locked or while the CPU has the turn in single-player mode; otherwise it is a pick |
| `ShapeMemoryGameLogic.ShapeMemoryGame.HandleSelection` | ShapeMemoryGame.java:187-201 | a matched card, the already picked card or no card is ignored. The first pick sets `firstIndex`. The second pick sets `secondIndex` to a different card and locks. Equal shapes match exactly those two cards and give the player to move exactly one point; the other score and the turn do not change. Different shapes change no flag and no score |
| `ShapeMemoryGameLogic.ShapeMemoryGame.CheckMatch` | ShapeMemoryGame.java:203-211 | equal shapes set exactly the two picked flags, add two to the matched count and one to the current player's score; different shapes change nothing |
| `ShapeMemoryGameLogic.ShapeMemoryGame.Resolve` | ShapeMemoryGame.java:213-237 | both callbacks unlock the board, set `firstIndex` to -1 and change no flag and no score. After a match the turn stays, the game ends exactly when all cards are matched (announcing `Winner`), and the CPU moves exactly when the game is not over and it is the CPU's turn. After a mismatch the turn passes 1↔2 and the CPU moves exactly when it is now the CPU's turn |
| `ShapeMemoryGameLogic.ShapeMemoryGame.AvailableCells` | ShapeMemoryGame.java:242-243 | the list holds exactly the unmatched cells, in increasing order without repeats, and its length is the number of unmatched cells |
| `ShapeMemoryGameLogic.ShapeMemoryGame.CpuMove` | ShapeMemoryGame.java:241-248 | the CPU does nothing exactly when fewer than two cells are unmatched; otherwise it chooses two distinct unmatched cells |
| `ShapeMemoryGameLogic.ShapeMemoryGame.PlayCpuTurn` | ShapeMemoryGame.java:241-255 | the CPU moves exactly when at least two cells are unmatched, and then picks two cells that were unmatched. The CPU's two timed picks always leave the board locked on its two chosen cards, with the turn still the CPU's and the mode unchanged. Equal shapes set exactly those two flags and give the CPU one point. Different shapes change no flag. Player 1's score never changes. With no move nothing changes |
| `ShapeMemoryGameLogic.ShapeMemoryGame.CheckWin` | ShapeMemoryGame.java:260-267 | the game is over exactly when every cell is matched, and then the announcement is the `Winner` of the scores |
| `ShapeMemoryGameLogic.ShapeMemoryGame.CpuStuckOnlyWhenCleared` | ShapeMemoryGame.java:242-244 | fewer than two unmatched cells happens only on a cleared board, because unmatched cells come in pairs |
| `ShapeMemoryGameLogic.ShapeMemoryGame.ScoresAtGameEnd` | ShapeMemoryGame.java:204-211 | when all cells are matched the two scores add up to 8, so a draw is exactly 4 to 4 |
| `ShapeMemoryGameLogic.TwoPlayerMismatch` | ShapeMemoryGame.java:221-234 | in two-player mode, player 1 picking two cards of different shapes passes the turn to player 2 and leaves the scores and all flags unchanged |
| `ShapeMemoryGameLogic.CpuAnswersMismatch` | ShapeMemoryGame.java:221-255 | against the CPU, a mismatch by player 1 passes the turn to the CPU, which always finds a move and ends it with the board locked on its two picks; player 1's score is unchanged |

## Left out

- The Swing interface is not modelled: windows, panels, buttons, labels, colours, borders, `updateUI`, `showPanel` and the menu. This includes the repaint parts of `reveal`, `hide` and the icon setters.
- `ShapeIcon.paintIcon` is not modelled. It draws with floating-point geometry, and the game logic needs only the shape, for equality.
- Timer delays (500, 600, 800 and 1000 ms) are not modelled. Each callback `checkMatch` schedules is one atomic step. A callback still pending when a new game is dealt is dropped: `Resolve` requires the lock that dealing clears.
- `PlayCpuTurn`: the CPU's choice and its two timed picks, which fire 1000 ms and 1800 ms after the choice, are one atomic step. The model does not capture a state between the first and second pick. Nothing else can run in that gap: user clicks are blocked while the CPU has the turn (ShapeMemoryGame.java:183). The one exception, a new game started from the menu, is the dropped-callback case above.
- `HandleSelection` requires the board to be unlocked. Its callers, the click guard and the CPU's timer callbacks, only run it unlocked.
- `JOptionPane` dialogs, the status texts and `System.exit` are not modelled. The end-of-game announcement is the `Outcome` value.
- Randomness is not modelled. The draws of `Collections.shuffle` are a parameter, so the model says nothing about the uniform distribution.
- `Deck.Shuffle`: proved to return a permutation. It is not proved that every permutation comes from some draws.
- Java's 32-bit `int` is not modelled for indices and scores. No value exceeds 16.
