/**
 * The round state of the game (the component's gameState object), the countdown, and the
 * pure update each event makes to that state.
 */
module Round {
  import opened Options

  /** The level the game starts at; it is also the length of the first target. */
  const InitialLevel: nat := 2
  /** The countdown's budget in milliseconds. */
  const TotalTime: int := 5000
  /** The countdown interval and the amount it takes off per tick, in milliseconds. */
  const TickMs: int := 100

  /** The outcome of checking an answer. */
  datatype Outcome = Success | Error

  /** The component's gameState object. */
  datatype GameState = GameState(isPlaying: bool, showSequence: bool, timeLeft: int, result: Option<Outcome>)

  /** The state before the first start: not playing, sequence flag raised, full budget. */
  const InitialState := GameState(false, true, TotalTime, None)
  /** The state that the start button and a successful round both install. */
  const RoundStart := GameState(true, true, TotalTime, None)
  /** The state that a failed round installs. */
  const GameOver := GameState(false, false, 0, None)

  /** The phases of a round, as the rendered view distinguishes them. */
  datatype Phase = Idle | Revealing | AwaitingInput | ShowingResult(outcome: Outcome)

  /**
   * The values gameState can take: the budget is a whole number of ticks between 0 and the
   * full budget; no result is shown while the sequence is shown; once the sequence is hidden
   * during play the budget is 0 (the input phase begins at 0 and ticks keep it there); and a
   * stopped game shows no result and is either fresh (sequence flag up, full budget) or over
   * (flag down, budget 0).
   */
  predicate Consistent(g: GameState) {
    0 <= g.timeLeft <= TotalTime && g.timeLeft % TickMs == 0 &&
    (g.showSequence ==> g.result == None) &&
    (g.isPlaying && !g.showSequence ==> g.timeLeft == 0) &&
    (!g.isPlaying ==> g.result == None && g.timeLeft == (if g.showSequence then TotalTime else 0))
  }

  /** The phase a state is in: the start button, the sequence, the answer slots, or a result message. */
  function PhaseOf(g: GameState): Phase {
    if !g.isPlaying then Idle
    else if g.showSequence then Revealing
    else if g.result.None? then AwaitingInput
    else ShowingResult(g.result.value)
  }

  function Max(a: int, b: int): int {
    if a < b then b else a
  }

  /** One tick of the countdown: a tick's worth less, clamped at zero. */
  function Countdown(t: int): (r: int)
    ensures 0 <= r
    ensures 0 <= t ==> r <= t
    ensures r == 0 <==> t <= TickMs
    ensures TickMs <= t ==> r == t - TickMs
  {
    Max(0, t - TickMs)
  }

  /** The budget after n ticks. */
  function Ticks(t: int, n: nat): int
    decreases n
  {
    if n == 0 then t else Ticks(Countdown(t), n - 1)
  }

  /** After n ticks a budget has lost n ticks' worth, but never goes below zero. */
  lemma {:induction false} TicksClamp(t: int, n: nat)
    requires 0 <= t
    ensures Ticks(t, n) == Max(0, t - n * TickMs)
  {
    if n > 0 {
      TicksClamp(Countdown(t), n - 1);
    }
  }

  /** From a full budget the countdown reaches zero after exactly fifty ticks, and then stays at zero. */
  lemma FullBudgetLastsFiftyTicks(n: nat)
    ensures Ticks(TotalTime, n) == 0 <==> n >= TotalTime / TickMs
    ensures n < TotalTime / TickMs ==> Ticks(TotalTime, n) == TotalTime - n * TickMs
  {
    TicksClamp(TotalTime, n);
  }

  /** The sequence is hidden by a step only when the budget had run out before it. */
  predicate HidesOnlyAtZero(before: GameState, after: GameState) {
    before.showSequence && !after.showSequence ==> before.timeLeft == 0
  }

  /** The start button: from a stopped game to a fresh reveal with the full budget. */
  function Started(g: GameState): (r: GameState)
    requires Consistent(g) && PhaseOf(g) == Idle
    ensures Consistent(r) && PhaseOf(r) == Revealing
    ensures r.timeLeft == TotalTime && r.result == None
  {
    RoundStart
  }

  /** One tick of the interval: only the budget changes, and the phase stays the same. */
  function Ticked(g: GameState): (r: GameState)
    requires Consistent(g) && g.isPlaying
    ensures Consistent(r) && PhaseOf(r) == PhaseOf(g)
    ensures r.timeLeft == Countdown(g.timeLeft) && r.(timeLeft := g.timeLeft) == g
  {
    g.(timeLeft := Countdown(g.timeLeft))
  }

  /**
   * The reveal timeout, armed once the budget is used up while the sequence is shown: it
   * hides the sequence and changes nothing else. It can only fire while a round is revealing.
   */
  function Hidden(g: GameState): (r: GameState)
    requires Consistent(g) && g.showSequence && g.timeLeft <= 0
    ensures PhaseOf(g) == Revealing
    ensures Consistent(r) && PhaseOf(r) == AwaitingInput
    ensures !r.showSequence && r.timeLeft == 0 && r.(showSequence := true) == g
  {
    g.(showSequence := false)
  }

  /** The check button: records the verdict as the result and changes nothing else. */
  function Judged(g: GameState, correct: bool): (r: GameState)
    requires Consistent(g) && PhaseOf(g) == AwaitingInput
    ensures Consistent(r)
    ensures PhaseOf(r) == ShowingResult(if correct then Success else Error)
    ensures r.(result := None) == g
  {
    g.(result := Some(if correct then Success else Error))
  }

  /**
   * The delayed continuation of a check: after success a new reveal with the full budget,
   * after failure a stopped game with the sequence hidden and no budget left.
   */
  function AfterFeedback(g: GameState): (r: GameState)
    requires Consistent(g) && PhaseOf(g).ShowingResult?
    ensures Consistent(r) && r.result == None
    ensures PhaseOf(g) == ShowingResult(Success) ==> PhaseOf(r) == Revealing && r.timeLeft == TotalTime
    ensures PhaseOf(g) == ShowingResult(Error) ==> PhaseOf(r) == Idle && !r.showSequence && r.timeLeft == 0
  {
    if g.result == Some(Success) then RoundStart else GameOver
  }
}
