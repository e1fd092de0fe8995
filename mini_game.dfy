/** The reflex game that gates a ticket claim (`components/MiniGame.tsx`): the
    guest must hit a moving target a number of times, set by the difficulty,
    before a fifteen-second countdown runs out. Winning schedules the parent's
    completion callback, which starts the claim. Target positions are random
    and are left out; the per-second timer is the `Tick` event. */
module MiniGame {

  datatype Difficulty = Easy | Medium | Hard

  datatype GameState = Idle | Playing | Won | Lost

  const ROUND_SECONDS: int := 15

  /** Hits needed to win. */
  function TargetsNeeded(d: Difficulty): (n: nat)
    ensures n > 0
    ensures d == Hard ==> n == 15
    ensures d == Medium ==> n == 10
    ensures d == Easy ==> n == 6
  {
    match d
    case Hard => 15
    case Medium => 10
    case Easy => 6
  }

  /** The game's state. */
  datatype Game = Game(state: GameState, score: nat, timeLeft: int)

  const InitialGame: Game := Game(Idle, 0, ROUND_SECONDS)

  /** The user's and the timer's actions. The hit button exists only while
      playing, the start button only while idle, retry only once lost. */
  datatype Event = StartPressed | SecondElapsed | TargetHit | RetryPressed

  predicate Available(g: Game, e: Event) {
    match e
    case StartPressed => g.state == Idle
    case SecondElapsed => true
    case TargetHit => g.state == Playing
    case RetryPressed => g.state == Lost
  }

  /** What an event does, and whether it schedules the completion callback. */
  datatype Outcome = Outcome(game: Game, completes: bool)

  function Step(g: Game, d: Difficulty, e: Event): (r: Outcome)
    requires Available(g, e)
    ensures r.completes ==> e == TargetHit && r.game.state == Won
                            && r.game.score >= TargetsNeeded(d)
    ensures e == TargetHit ==> r.game.score == g.score + 1 && r.game.timeLeft == g.timeLeft
    ensures e == TargetHit ==> (r.completes <==> g.score + 1 >= TargetsNeeded(d))
    ensures e == SecondElapsed && g.state == Playing && g.timeLeft > 0 ==>
              r.game.timeLeft == g.timeLeft - 1 && r.game.score == g.score
              && r.game.state == (if g.timeLeft == 1 then Lost else Playing)
    ensures e == SecondElapsed && !(g.state == Playing && g.timeLeft > 0) ==>
              r.game == (if g.state == Playing && g.timeLeft == 0 then g.(state := Lost) else g)
    ensures e == RetryPressed ==> r.game == Game(Playing, 0, ROUND_SECONDS)
    ensures e == StartPressed ==> r.game == g.(state := Playing)
  {
    match e
    case StartPressed => Outcome(g.(state := Playing), false)
    case SecondElapsed =>
      if g.state == Playing && g.timeLeft > 0 then
        var t := g.timeLeft - 1;
        Outcome(g.(timeLeft := t, state := if t == 0 then Lost else Playing), false)
      else if g.state == Playing && g.timeLeft == 0 then Outcome(g.(state := Lost), false)
      else Outcome(g, false)
    case TargetHit =>
      var newScore := g.score + 1;
      if newScore >= TargetsNeeded(d) then Outcome(g.(score := newScore, state := Won), true)
      else Outcome(g.(score := newScore), false)
    case RetryPressed => Outcome(Game(Playing, 0, ROUND_SECONDS), false)
  }

  /** What holds in every state the game can reach: the countdown within its
      round, the score short of the target unless the game is won, time left
      while playing and none once lost. */
  predicate Reachable(g: Game, d: Difficulty) {
    0 <= g.timeLeft <= ROUND_SECONDS
    && (g.state == Won <==> g.score >= TargetsNeeded(d))
    && (g.state == Idle ==> g.score == 0 && g.timeLeft == ROUND_SECONDS)
    && (g.state == Lost ==> g.timeLeft == 0)
    && (g.state == Playing ==> g.timeLeft > 0)
  }

  lemma StepKeepsReachable(g: Game, d: Difficulty, e: Event)
    requires Reachable(g, d) && Available(g, e)
    ensures Reachable(Step(g, d, e).game, d)
  {
  }

  /** One event of a run, available or not. */
  function Next(g: Game, d: Difficulty, e: Event): Outcome {
    if Available(g, e) then Step(g, d, e) else Outcome(g, false)
  }

  /** The outcomes of a sequence of available events; events that are not
      available in the state they meet (a button not on screen) do nothing. */
  function Run(g: Game, d: Difficulty, events: seq<Event>): seq<Outcome>
    decreases |events|
  {
    if events == [] then []
    else
      var o := Next(g, d, events[0]);
      [o] + Run(o.game, d, events[1..])
  }

  lemma NextKeepsReachable(g: Game, d: Difficulty, e: Event)
    requires Reachable(g, d)
    ensures Reachable(Next(g, d, e).game, d)
    ensures Next(g, d, e).completes ==>
              e == TargetHit && Next(g, d, e).game.state == Won
              && Next(g, d, e).game.score >= TargetsNeeded(d) && g.state == Playing
  {
    if Available(g, e) {
      StepKeepsReachable(g, d, e);
    }
  }

  /** Along any run from a reachable state, every state stays reachable, and the
      completion callback is scheduled only by the hit that reaches the target:
      the claim is never attempted without a won game. */
  lemma {:induction false} RunCompletesOnlyOnWin(g: Game, d: Difficulty, events: seq<Event>)
    requires Reachable(g, d)
    ensures |Run(g, d, events)| == |events|
    ensures forall i :: 0 <= i < |events| ==> Reachable(Run(g, d, events)[i].game, d)
    ensures forall i :: 0 <= i < |events| && Run(g, d, events)[i].completes ==>
              events[i] == TargetHit && Run(g, d, events)[i].game.state == Won
              && Run(g, d, events)[i].game.score >= TargetsNeeded(d)
              && (if i == 0 then g.state else Run(g, d, events)[i - 1].game.state) == Playing
    decreases |events|
  {
    if events != [] {
      var o := Next(g, d, events[0]);
      NextKeepsReachable(g, d, events[0]);
      var rest := Run(o.game, d, events[1..]);
      RunCompletesOnlyOnWin(o.game, d, events[1..]);
      var r := Run(g, d, events);
      assert r == [o] + rest;
      forall i | 0 < i < |events|
        ensures r[i] == rest[i - 1] && events[i] == events[1..][i - 1]
      {
      }
    }
  }

  /** A won game stays won: no later event changes it or completes again. */
  lemma WonIsFinal(g: Game, d: Difficulty, e: Event)
    requires g.state == Won && Available(g, e)
    ensures Step(g, d, e) == Outcome(g, false)
  {
  }

  /** The game screen's state, updated in place by its handlers. */
  class MiniGameScreen {
    var gameState: GameState
    var score: nat
    var timeLeft: int
    const difficulty: Difficulty

    function Current(): Game
      reads this
    {
      Game(gameState, score, timeLeft)
    }

    constructor(difficulty: Difficulty)
      ensures Current() == InitialGame && this.difficulty == difficulty
      ensures Reachable(Current(), difficulty)
    {
      this.difficulty := difficulty;
      gameState := Idle;
      score := 0;
      timeLeft := ROUND_SECONDS;
    }

    method Start()
      requires gameState == Idle
      modifies this
      ensures Current() == Step(old(Current()), difficulty, StartPressed).game
    {
      gameState := Playing;
    }

    /** One second of the countdown, with the loss that follows a zero. */
    method Tick()
      modifies this
      ensures Current() == Step(old(Current()), difficulty, SecondElapsed).game
    {
      if gameState == Playing && timeLeft > 0 {
        timeLeft := timeLeft - 1;
      }
      if timeLeft == 0 && gameState == Playing {
        gameState := Lost;
      }
    }

    /** Returns whether the completion callback is scheduled. */
    method HandleHit() returns (completes: bool)
      requires gameState == Playing
      modifies this
      ensures Current() == Step(old(Current()), difficulty, TargetHit).game
      ensures completes == Step(old(Current()), difficulty, TargetHit).completes
    {
      var newScore := score + 1;
      score := newScore;
      if newScore >= TargetsNeeded(difficulty) {
        gameState := Won;
        completes := true;
      } else {
        completes := false;
      }
    }

    method Retry()
      requires gameState == Lost
      modifies this
      ensures Current() == Step(old(Current()), difficulty, RetryPressed).game
    {
      score := 0;
      timeLeft := ROUND_SECONDS;
      gameState := Playing;
    }
  }
}
