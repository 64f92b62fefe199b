/**
 * The memory-game component as an object: its state and the events it reacts to.
 *
 * Each method stands for one event: the start button, one tick of the 100 ms interval, the
 * reveal timeout, a drop on a slot, the check button, and the continuation that runs after
 * the result has been shown. Timers are not modelled; their firing is the method call.
 */
module Game {
  import opened Options
  import opened Target
  import opened Answer
  import opened Round

  class MemoryGame {
    /** The level; the target has this many colours. */
    var currentLevel: nat
    /** Playing flag, sequence flag, countdown budget and shown result. */
    var gameState: GameState
    /** The answer buffer, filled by drops. */
    var userSequence: seq<Slot>
    /** The colours to remember; regenerated whenever the level changes. */
    var targetSequence: seq<Color>

    /** The invariant of every reachable state. */
    ghost predicate Valid()
      reads this
    {
      InitialLevel <= currentLevel &&
      Consistent(gameState) &&
      IsTarget(targetSequence, currentLevel)
    }

    /** A fresh component: level 2, not yet playing, an empty buffer and a target drawn for level 2. */
    constructor (randoms: seq<real>)
      requires ValidRandoms(randoms, InitialLevel)
      ensures Valid()
      ensures currentLevel == InitialLevel && gameState == InitialState && PhaseOf(gameState) == Idle
      ensures userSequence == [] && targetSequence == Generate(InitialLevel, randoms)
    {
      currentLevel := InitialLevel;
      gameState := InitialState;
      userSequence := [];
      targetSequence := Generate(InitialLevel, randoms);
    }

    /** The start button, shown only while not playing. Level, buffer and target are kept. */
    method StartGame()
      requires Valid() && !gameState.isPlaying
      modifies this
      ensures Valid() && HidesOnlyAtZero(old(gameState), gameState)
      ensures gameState == Started(old(gameState)) && PhaseOf(gameState) == Revealing
      ensures gameState.isPlaying && gameState.showSequence && gameState.timeLeft == TotalTime && gameState.result == None
      ensures currentLevel == old(currentLevel) && userSequence == old(userSequence)
      ensures targetSequence == old(targetSequence)
    {
      gameState := Started(gameState);
    }

    /** One tick of the interval, which runs only while playing: the budget drops by 100 ms, clamped at 0. */
    method Tick()
      requires Valid() && gameState.isPlaying
      modifies this
      ensures Valid() && HidesOnlyAtZero(old(gameState), gameState)
      ensures gameState == Ticked(old(gameState)) && PhaseOf(gameState) == PhaseOf(old(gameState))
      ensures gameState.timeLeft == Countdown(old(gameState).timeLeft) <= old(gameState).timeLeft
      ensures currentLevel == old(currentLevel) && userSequence == old(userSequence)
      ensures targetSequence == old(targetSequence)
    {
      gameState := Ticked(gameState);
    }

    /**
     * The reveal timeout, armed while the sequence is shown and the budget is used up:
     * the sequence is hidden and nothing else changes.
     */
    method RevealTimeout()
      requires Valid() && gameState.showSequence && gameState.timeLeft <= 0
      modifies this
      ensures Valid() && HidesOnlyAtZero(old(gameState), gameState)
      ensures old(PhaseOf(gameState)) == Revealing && PhaseOf(gameState) == AwaitingInput
      ensures gameState == old(gameState).(showSequence := false)
      ensures currentLevel == old(currentLevel) && userSequence == old(userSequence)
      ensures targetSequence == old(targetSequence)
    {
      gameState := Hidden(gameState);
    }

    /** A drop of colour c on slot index: that slot now holds c and every other slot is as before. */
    method Drop(index: nat, c: Color)
      requires Valid()
      modifies this
      ensures Valid() && HidesOnlyAtZero(old(gameState), gameState)
      ensures userSequence == Assign(old(userSequence), index, c)
      ensures forall j: nat :: SlotAt(userSequence, j) == if j == index then Some(c) else SlotAt(old(userSequence), j)
      ensures gameState == old(gameState) && currentLevel == old(currentLevel)
      ensures targetSequence == old(targetSequence)
    {
      userSequence := Assign(userSequence, index, c);
    }

    /**
     * The check button, shown only while playing with the sequence hidden and no result:
     * the result becomes Success exactly when the buffer matches the target slot by slot.
     */
    method CheckAnswer()
      requires Valid() && gameState.isPlaying && !gameState.showSequence && gameState.result == None
      modifies this
      ensures Valid() && HidesOnlyAtZero(old(gameState), gameState)
      ensures gameState.result == Some(Success) <==> IsCorrect(targetSequence, userSequence)
      ensures gameState.result == Some(Error) <==> !IsCorrect(targetSequence, userSequence)
      ensures gameState == old(gameState).(result := gameState.result)
      ensures currentLevel == old(currentLevel) && userSequence == old(userSequence)
      ensures targetSequence == old(targetSequence)
    {
      var isCorrect := IsCorrect(targetSequence, userSequence);
      gameState := Judged(gameState, isCorrect);
    }

    /**
     * The continuation scheduled by the check. After success: the level goes up by one, a new
     * round starts with the full budget and an empty buffer, and a new target is drawn for the
     * new level. After failure: the game stops with the sequence hidden and no budget left,
     * and the level, the buffer and the target are kept.
     */
    method FeedbackTimeout(randoms: seq<real>)
      requires Valid() && gameState.result.Some?
      requires gameState.result == Some(Success) ==> ValidRandoms(randoms, currentLevel + 1)
      modifies this
      ensures Valid() && HidesOnlyAtZero(old(gameState), gameState)
      ensures gameState == AfterFeedback(old(gameState)) && gameState.result == None
      ensures old(gameState.result) == Some(Success) ==>
        currentLevel == old(currentLevel) + 1 && gameState == RoundStart && userSequence == [] &&
        targetSequence == Generate(currentLevel, randoms)
      ensures old(gameState.result) == Some(Error) ==>
        gameState == GameOver && currentLevel == old(currentLevel) &&
        userSequence == old(userSequence) && targetSequence == old(targetSequence)
    {
      if gameState.result == Some(Success) {
        currentLevel := currentLevel + 1;
        gameState := AfterFeedback(gameState);
        userSequence := [];
        targetSequence := Generate(currentLevel, randoms);
      } else {
        gameState := AfterFeedback(gameState);
      }
    }
  }
}
