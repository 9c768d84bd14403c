/**
 * The timed game mode (TappySwipey/ViewControllers/TimedGameViewController.swift):
 * a millisecond countdown that ends the session when it runs out, played with
 * diminishing returns on repeated actions.
 *
 * The source subclasses the base controller; here a TimedGame owns the
 * GameSession it extends and adds the countdown state.
 */
module Timed {
  import Catalog
  import Session

  /** The length of a timed game, in milliseconds. */
  const StartingMilliseconds: int := 60_000

  /**
   * The state the countdown tick reads and writes: the time left, the
   * session's `loading` flag and whether the game timer is still scheduled.
   */
  datatype Countdown = Countdown(millisecondsLeft: int, loading: bool, timerActive: bool)

  /** end(): the session is loading from now on and the game timer is invalidated; the time left is kept. */
  function Ended(c: Countdown): (r: Countdown)
    ensures r.loading && !r.timerActive
    ensures r.millisecondsLeft == c.millisecondsLeft
  {
    c.(loading := true, timerActive := false)
  }

  /** Whether the next delivery of the game timer runs out the clock and ends the session. */
  predicate EndsOnTick(c: Countdown)
  {
    c.timerActive && !c.loading && c.millisecondsLeft - 1 <= 0
  }

  /**
   * One firing of the game timer. An invalidated timer fires no more and a
   * tick while loading changes nothing. Otherwise the tick takes exactly one
   * millisecond off, and ends the session exactly when that leaves no time.
   */
  function AfterGameTick(c: Countdown): (r: Countdown)
    ensures !c.timerActive || c.loading ==> r == c
    ensures c.timerActive && !c.loading ==> r.millisecondsLeft == c.millisecondsLeft - 1
    ensures c.timerActive && !c.loading ==> (r.loading <==> c.millisecondsLeft - 1 <= 0)
    ensures c.timerActive && !c.loading ==> (r.timerActive <==> c.millisecondsLeft - 1 > 0)
    ensures EndsOnTick(c) <==> !c.loading && r.loading
  {
    if !c.timerActive || c.loading then c
    else
      var next := c.(millisecondsLeft := c.millisecondsLeft - 1);
      if next.millisecondsLeft <= 0 then Ended(next) else next
  }

  /** `n` firings of the game timer in a row. */
  function AfterGameTicks(c: Countdown, n: nat): Countdown
    decreases n
  {
    if n == 0 then c else AfterGameTicks(AfterGameTick(c), n - 1)
  }

  /** end() is idempotent, and once it has run further ticks change nothing. */
  lemma EndIsFinal(c: Countdown)
    ensures Ended(Ended(c)) == Ended(c)
    ensures AfterGameTick(Ended(c)) == Ended(c)
  {
  }

  /**
   * From `m` >= 1 milliseconds with a live timer, each of the first `m - 1`
   * ticks takes one millisecond off; the `m`-th reaches zero and ends the
   * session, after which the clock stays at zero.
   */
  lemma {:induction false} CountdownRun(m: int, n: nat)
    requires m >= 1
    ensures AfterGameTicks(Countdown(m, false, true), n) ==
      if n < m then Countdown(m - n, false, true) else Countdown(0, true, false)
    decreases n
  {
    if n > 0 {
      if m == 1 {
        assert AfterGameTick(Countdown(1, false, true)) == Countdown(0, true, false);
        ZeroStaysEnded(n - 1);
      } else {
        assert AfterGameTick(Countdown(m, false, true)) == Countdown(m - 1, false, true);
        CountdownRun(m - 1, n - 1);
      }
    }
  }

  /** An ended clock at zero stays put however many ticks follow. */
  lemma {:induction false} ZeroStaysEnded(n: nat)
    ensures AfterGameTicks(Countdown(0, true, false), n) == Countdown(0, true, false)
    decreases n
  {
    if n > 0 {
      ZeroStaysEnded(n - 1);
    }
  }

  /**
   * A timed game never shows negative time, and it is over after `n` ticks
   * exactly when `n` is at least 60 000: the 60 000th tick ends it.
   */
  lemma TimedGameLength(n: nat)
    ensures AfterGameTicks(Countdown(StartingMilliseconds, false, true), n).millisecondsLeft >= 0
    ensures AfterGameTicks(Countdown(StartingMilliseconds, false, true), n).loading <==> n >= StartingMilliseconds
  {
    CountdownRun(StartingMilliseconds, n);
  }

  /** The timed game controller: a session plus its countdown. */
  class TimedGame {
    const game: Session.GameSession
    var millisecondsLeft: int
    /** Whether the repeating game timer is scheduled and not yet invalidated. */
    var gameTimerActive: bool

    ghost predicate Valid()
      reads this, game
    {
      game.Valid()
    }

    /** The countdown state of this game. */
    function Clock(): Countdown
      reads this, game
    {
      Countdown(millisecondsLeft, game.loading, gameTimerActive)
    }

    /** A new timed game with the full 60 seconds; `loading` comes from code that is not part of this model. */
    constructor (loading: bool)
      ensures Valid() && fresh(game)
      ensures millisecondsLeft == StartingMilliseconds && !gameTimerActive
      ensures game.points == 0 && game.comboStack == [] && game.actionCounters == map[]
      ensures game.loading == loading && !game.comboTimerActive
      ensures game.Combo() == Session.ComboState([], false) && !game.pointValuesShouldDecrease
    {
      game := new Session.GameSession(loading);
      millisecondsLeft := StartingMilliseconds;
      gameTimerActive := false;
    }

    /** The base set-up, then diminishing returns switched on. */
    method ViewDidLoad()
      requires Valid()
      modifies game
      ensures Valid()
      ensures game.pointValuesShouldDecrease
      ensures forall i | 0 <= i < |Catalog.All| :: Catalog.All[i].title in game.actionCounters && game.actionCounters[Catalog.All[i].title] == 0
      ensures forall t | t in game.actionCounters && !Session.TitleAmong(Catalog.All, t) ::
        t in old(game.actionCounters) && game.actionCounters[t] == old(game.actionCounters)[t]
      ensures forall t | t in old(game.actionCounters) :: t in game.actionCounters
      ensures game.comboTimerActive
      ensures game.points == old(game.points) && game.Combo() == old(game.Combo()) && game.loading == old(game.loading)
    {
      game.ViewDidLoad();
      game.pointValuesShouldDecrease := true;
    }

    /** Schedules the game timer (the base class's own start-up is not part of this model). */
    method Start()
      requires Valid()
      modifies this`gameTimerActive
      ensures Valid()
      ensures gameTimerActive
    {
      gameTimerActive := true;
    }

    /** One delivery of the game timer. */
    method GameTick()
      requires Valid()
      modifies this`millisecondsLeft, this`gameTimerActive, game`loading, game`comboTimerActive
      ensures Valid()
      ensures Clock() == AfterGameTick(old(Clock()))
      ensures game.comboTimerActive == (old(game.comboTimerActive) && !EndsOnTick(old(Clock())))
      ensures old(game.loading) ==> unchanged(this, game)
    {
      if !gameTimerActive {
        return;
      }
      if game.loading {
        return;
      }
      millisecondsLeft := millisecondsLeft - 1;
      if millisecondsLeft <= 0 {
        End();
      }
    }

    /** Ends the game: loading from now on, both timers invalidated; nothing else changes. */
    method End()
      requires Valid()
      modifies this`gameTimerActive, game`loading, game`comboTimerActive
      ensures Valid()
      ensures Clock() == Ended(old(Clock()))
      ensures !game.comboTimerActive
    {
      game.loading := true;
      game.comboTimerActive := false;
      gameTimerActive := false;
    }
  }

  /** In a timed game three firings of "Single Tap" in a row earn 1000 + 500 + 333 points. */
  method SingleTapThreeTimes() returns (total: int)
    ensures total == 1833
  {
    var timed := new TimedGame(false);
    timed.ViewDidLoad();
    var tap := Catalog.Taps[0];
    assert Catalog.All[0] == tap;
    assert tap.value == 1000;
    timed.game.PerformAction(tap);
    timed.game.PerformAction(tap);
    timed.game.PerformAction(tap);
    total := timed.game.points;
  }
}
