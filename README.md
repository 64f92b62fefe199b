# Brain Paint: the round state machine of a colour-memory game

The game is a single browser component, `MemoryGame` in `src/App.tsx`. It shows a row of
colours, hides it, and asks the player to drag colours from a six-colour palette into answer
slots. A correct answer raises the level by one. The next target is then one colour longer.

This project models that component's state and the events it reacts to:

- `Target`: the palette and the random generation of a level's target sequence.
- `Answer`: the answer buffer, the copy-and-set update a drop makes, and the
  slot-by-slot comparison that decides a check.
- `Round`: the component's `gameState` object (`isPlaying`, `showSequence`, `timeLeft`,
  `result`), the clamped 100 ms countdown, the phases a round goes through, and the pure
  update each event makes to `gameState`.
- `Game`: the class `MemoryGame`. Its fields are `currentLevel`, `gameState`,
  `userSequence` and `targetSequence`. Its methods are the events: the start button, an
  interval tick, the reveal timeout, a drop, the check button and the continuation scheduled
  by the check.
- `Options`: an `Option` type, used for unset answer slots and for the absent result.

Modelling choices:

- A colour is a string, as in the component. A drop carries whatever string the drag
  delivered, so a dropped colour need not be a palette colour.
- An answer slot is `Option<Color>`. A JavaScript write past the end of the array leaves
  holes, and reading a hole or past the end gives `undefined`. `Answer.SlotAt` is the
  definition of reading `userSequence[i]`: the stored entry inside the buffer, and `None`
  (unset, equal to no colour) in a hole or past the end.
- `Math.random()` is replaced by a sequence of reals in [0, 1) supplied by the caller. The
  index is `floor(r * 6)` computed in exact real arithmetic, not with the rounded
  floating-point product (see "Left out").
- Each timer firing is a method call. Each event's precondition is the condition under which
  the component can deliver it:
  - the start button shows only while not playing;
  - the interval runs only while playing;
  - the reveal timeout is armed only while the sequence is shown and the budget is 0;
  - the check button shows only while playing, with the sequence hidden and no result;
  - the feedback continuation exists only after a check has set a result.
- A drop has no precondition, and any slot index is accepted, as in the handler. The
  component renders the slots, and so can deliver drops, only while playing with the
  sequence hidden. Allowing drops in every state is therefore a sound over-approximation:
  every drop the component can deliver is covered.

Behaviour of the code that the model keeps:

- A failed round does not reset the level and does not clear the buffer.
- Restarting after a failure keeps the same target. The target is regenerated only when the
  level changes.
- The input phase begins with the budget at 0, because the sequence is hidden only once the
  countdown has reached 0. The interval keeps running and keeps writing 0. Input is not
  time-limited.
- The tick interval is 100 ms.

## Model

| member | source | states |
|---|---|---|
| `Target.DrawIndex` | src/App.tsx:98 | `floor(r * 6)` for a random `r` in [0, 1) is a valid palette index |
| `Target.DrawUniform` | src/App.tsx:98 | index `k` is drawn exactly when `r` lies in [k/6, (k+1)/6), so each colour gets one sixth of the random range |
| `Target.Generate` | src/App.tsx:94-101 | the target for a level has exactly `level` colours, each a palette colour |
| `Target.GenerateCovers` | src/App.tsx:94-101 | every palette sequence of the level's length is the target for some random draws |
| `Answer.IsCorrect` | src/App.tsx:118-120 | the verdict of the `every` comparison: an empty target is always matched; a correct buffer holds the last target colour in the last target slot, so it is at least as long as the target |
| `Answer.Assign` | src/App.tsx:110-114 | after a drop, the given slot holds the colour and every other slot reads as before; a write past the end grows the buffer to `index + 1` |
| `Answer.AssignLastWriteWins` | src/App.tsx:110-114 | two drops on the same slot leave the later colour; a repeated identical drop changes nothing |
| `Answer.AssignCommutes` | src/App.tsx:110-114 | drops on two different slots give the same buffer in either order |
| `Answer.CorrectIffPrefix` | src/App.tsx:117-120 | the check succeeds exactly when the buffer is at least as long as the target and its first slots hold the target's colours in order |
| `Answer.ExtraSlotsIgnored` | src/App.tsx:118-120 | slots past the target's length never change the verdict |
| `Answer.UnsetSlotFails` | src/App.tsx:118-120 | an unset slot within the target's length makes the answer wrong |
| `Answer.SwapFails` | src/App.tsx:118-120 | the check is order-sensitive: swapping two different target colours gives the same multiset of colours but a wrong answer |
| `Answer.TargetDropsSucceed` | src/App.tsx:107-120 | dropping each target colour on its own slot, in order, into an empty buffer gives exactly the target, and the check succeeds |
| `Round.Countdown` | src/App.tsx:155 | a tick never makes the budget negative or larger; it reaches 0 exactly when at most 100 ms were left, and otherwise takes off exactly 100 ms |
| `Round.TicksClamp` | src/App.tsx:152-157 | after `n` ticks the budget is `max(0, t - 100n)` |
| `Round.FullBudgetLastsFiftyTicks` | src/App.tsx:149-157 | from the full 5000 ms budget, the countdown is 0 exactly from the fiftieth tick on |
| `Round.Started` | src/App.tsx:177-183 | the start button moves a stopped game into the reveal phase with the full budget and no result |
| `Round.Ticked` | src/App.tsx:152-157 | a tick changes only the budget, and the phase stays the same |
| `Round.Hidden` | src/App.tsx:162-167 | the reveal timeout can only fire during the reveal phase; it hides the sequence, changes nothing else, and leads to the input phase with the budget at 0 |
| `Round.Judged` | src/App.tsx:121-124 | checking changes only the result, leading from the input phase to the result phase |
| `Round.AfterFeedback` | src/App.tsx:126-146 | after success a new reveal with the full budget; after failure a stopped game with the sequence hidden and budget 0; the result is cleared in both cases |
| `Game.MemoryGame.constructor` | src/App.tsx:84-101 | a fresh game is at level 2, not playing, with an empty buffer and a target generated for level 2 |
| `Game.MemoryGame.StartGame` | src/App.tsx:174-184 | start sets playing, shows the sequence, restores the full budget and clears the result; level, buffer and target are kept |
| `Game.MemoryGame.Tick` | src/App.tsx:149-160 | a tick, possible only while playing, takes 100 ms off the budget, clamped at 0; nothing else changes |
| `Game.MemoryGame.RevealTimeout` | src/App.tsx:162-170 | once the budget is 0 the sequence is hidden; nothing else changes |
| `Game.MemoryGame.Drop` | src/App.tsx:107-115 | the dropped colour is written at exactly the given slot; every other slot and all other state is unchanged |
| `Game.MemoryGame.CheckAnswer` | src/App.tsx:117-124 | the result becomes Success exactly when the buffer matches the target slot by slot, and Error otherwise; nothing else changes |
| `Game.MemoryGame.FeedbackTimeout` | src/App.tsx:126-146 | after success: level + 1, a new reveal, empty buffer, new target for the new level. After failure: stopped with the sequence hidden and budget 0, with level, buffer and target unchanged |

Every event method also keeps the invariant `Valid()`:
- the level is at least 2;
- the target has `currentLevel` palette colours;
- `gameState` is `Consistent`: the budget is a whole number of ticks between 0 and 5000;
  no result is shown while the sequence is shown; the budget is 0 whenever the game is
  playing with the sequence hidden; a stopped game shows no result and is either fresh or
  over.

Each method also keeps `HidesOnlyAtZero`: the sequence is hidden only once the budget has
reached 0.

## Left out

- Rendering and the presentational components (`GameHeader`, `Timer`, `LevelProgress`,
  `GameControls`, styles, the displayed level `currentLevel - 1`). They are display only.
- The timer bar width `(timeLeft / totalTime) * 100`. It is floating-point display code.
- `Math.random`. Its values are supplied as reals in [0, 1); no probability distribution is
  modelled beyond `Target.DrawUniform`.
- `Target.DrawIndex`: the product `r * 6` is exact here, while JavaScript rounds the IEEE
  double product. The bound `index < 6` holds for both, but the index of a draw just below a
  multiple of 1/6 can differ: the double just below 5/6 gives 4 here and 5 in the browser.
- `Target.DrawUniform`: the boundaries [k/6, (k+1)/6) are those of exact arithmetic. IEEE
  rounding of `r * 6` moves a few draws just below a boundary to the next index (for example
  the double just below 5/6 goes to index 5), so the intervals in the browser differ slightly.
- The timing machinery: `setInterval`, `setTimeout`, their cleanup, and the 500 ms and
  1500 ms delays. A timer firing is an explicit method call. Each method's precondition is
  the condition under which that timer is armed; cancellation and interleaving in real time
  are not modelled.
- The drag-and-drop `DataTransfer` API (`handleDragStart`, reading the colour in
  `handleDrop`). A drop is an event carrying a slot index and a colour string.
