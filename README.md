# TappySwipey gameplay core in Dafny

This project models the gameplay core of TappySwipey, an arcade game that scores multi-touch
taps and swipes. It has three parts, one Dafny module per source file:

- `catalog.dfy` (module `Catalog`, from `TappySwipey/Actions.swift`) is the fixed catalog of 16
  taps and 16 swipes. The `Action`/`TapAction`/`SwipeAction` class hierarchy becomes one record
  `Action(title, value, touches, kind)` whose `kind` is `Tap(taps)` or `Swipe(direction)`.
  `Taps`, `Swipes` and `All` are constant sequences holding the source's literal entries in the
  source's order. Lemmas prove the value formulas, the layout and coverage of the
  (fingers, taps) and (fingers, direction) grids, that keys are unique, how `All` is ordered,
  and that all 32 titles differ. Titles are the keys of the repeat counters, so distinct titles
  mean no two actions share a counter.
- `session.dfy` (module `Session`, from `TappySwipey/ViewControllers/BaseGameViewController.swift`)
  holds the session logic:
  - The tap-conflict predicate `ShouldRequireFailureOf`, a pure function.
  - The scoring rule: `Award`, built on Swift's truncating `TruncDiv`.
  - The combo stack's pure transitions: `Pushed` and `AfterComboTick`, with lemmas about idle
    and busy tick intervals.
  - The class `GameSession`, whose fields are the controller's stored properties: `points`,
    `pointValuesShouldDecrease`, `comboStack`, `shouldResetComboStack` and `actionCounters`.
    It adds `loading` and a `comboTimerActive` flag. Each controller method becomes a method of
    this class. The body of the once-a-second timer closure becomes `ComboTick()`.
- `timed.dfy` (module `Timed`, from `TappySwipey/ViewControllers/TimedGameViewController.swift`)
  is the timed mode. The subclass becomes a class `TimedGame` that owns its `GameSession`. It
  adds `millisecondsLeft` (an integer that starts at 60 000) and a `gameTimerActive` flag. The
  body of the 1 ms timer closure becomes `GameTick()`. `End()` sets `loading` and invalidates
  both timers. The pure `Countdown` state and `AfterGameTick` let the lemmas follow a whole
  game: the clock never goes below zero, and the 60 000th live tick ends the game.

Timers are modelled as explicit method calls. A `Timer.invalidate()` is modelled as clearing a
flag, and a tick of an invalidated timer changes nothing, because no tick is delivered.

Where the intended game (a scoring gate while not running, a countdown in seconds, a pause state)
differs from the code, the model follows the code:

- `performAction` does not check `loading` or `paused`, so a gesture is scored in every state.
  The model adds no gate.
- The countdown is an integer number of milliseconds, not a real number of seconds.
- Pausing has no code in these files, so there is no pause state.
- `checkForCombo` always returns `false`, and the model says exactly that.

## Model

| member | source | states |
|---|---|---|
| `Catalog.TapsLayout` | TappySwipey/Actions.swift:102-119 | There are 16 taps. Entry `i` needs `i / 4 + 1` fingers and `i % 4 + 1` taps, so taps are listed by finger count, then by tap count. |
| `Catalog.TapValues` | TappySwipey/Actions.swift:103-118 | Every tap is worth fingers × taps × 1000 points. |
| `Catalog.TapsCoverGrid` | TappySwipey/Actions.swift:103-118 | A tap with a given (fingers, taps) pair exists exactly when both numbers lie in 1..4. |
| `Catalog.TapKeysUnique` | TappySwipey/Actions.swift:103-118 | No two taps share a (fingers, taps) pair. |
| `Catalog.SwipesLayout` | TappySwipey/Actions.swift:124-141 | There are 16 swipes. Entry `i` needs `i / 4 + 1` fingers and goes in direction `[Up, Down, Left, Right][i % 4]`. |
| `Catalog.SwipeValues` | TappySwipey/Actions.swift:125-140 | Every swipe is worth 1000 points, whatever its finger count. |
| `Catalog.SwipesCoverGrid` | TappySwipey/Actions.swift:125-140 | A swipe with a given (fingers, direction) pair exists exactly when the finger count lies in 1..4. This holds for every direction. |
| `Catalog.SwipeKeysUnique` | TappySwipey/Actions.swift:125-140 | No two swipes share a (fingers, direction) pair. |
| `Catalog.AllLayout` | TappySwipey/Actions.swift:146 | `all` has 32 entries: the taps in their order, then the swipes in theirs. Entry `i` is a tap exactly when `i < 16`. |
| `Catalog.AllWellFormed` | TappySwipey/Actions.swift:103-140 | Every action has a positive value and needs 1 to 4 fingers. Every tap needs 1 to 4 taps. |
| `Catalog.TitlesDistinct` | TappySwipey/Actions.swift:103-140 | All 32 titles are pairwise distinct, so a title identifies one action and one counter. |
| `Session.ShouldRequireFailureOf` | TappySwipey/ViewControllers/BaseGameViewController.swift:124-132 | A recognizer is made to wait for another only when both are taps with the same finger count and the first needs strictly fewer taps. |
| `Session.ConflictCharacterised` | TappySwipey/ViewControllers/BaseGameViewController.swift:124-132 | A recognizer waits for another exactly when both are taps with the same finger count and the first needs fewer taps. It never waits when either one is a swipe, or when finger counts differ. |
| `Session.ConflictStrictOrder` | TappySwipey/ViewControllers/BaseGameViewController.swift:129-131 | The waiting relation is irreflexive, asymmetric and transitive. |
| `Session.CatalogTapsTotallyOrdered` | TappySwipey/ViewControllers/BaseGameViewController.swift:124-132 | Take two different catalog taps with the same finger count: exactly one of them waits for the other. |
| `Session.TruncDiv` | TappySwipey/ViewControllers/BaseGameViewController.swift:150 | Swift's `/` truncates toward zero. For `a >= 0` the result is the floor of `a / b`, between 0 and `a`. For `a < 0` it rounds up, between `a` and 0. |
| `Session.Award` | TappySwipey/ViewControllers/BaseGameViewController.swift:149-151 | The award is the full value when diminishing returns are off or the counter is 1. For a non-negative value it lies between 0 and the value, and with diminishing returns it is the floor of value / counter. A negative value is truncated toward zero instead, so `Award(-3, 2, true) == -1`. |
| `Session.AwardDiminishes` | TappySwipey/ViewControllers/BaseGameViewController.swift:148-151 | With diminishing returns, a later firing of the same action never earns more than an earlier one. |
| `Session.AfterComboTick` | TappySwipey/ViewControllers/BaseGameViewController.swift:71-78 | A combo tick empties the stack if the flag was set and keeps it otherwise. The flag is always set afterwards. |
| `Session.IdleIntervalFlushes` | TappySwipey/ViewControllers/BaseGameViewController.swift:71-78 | Two combo ticks with no append in between leave the stack empty. |
| `Session.Pushed` | TappySwipey/ViewControllers/BaseGameViewController.swift:95-98 | Appending puts the title last, keeps every earlier entry and clears the reset flag. |
| `Session.PushedAllAppends` | TappySwipey/ViewControllers/BaseGameViewController.swift:95-98 | Appending several titles in turn adds them at the end in order. |
| `Session.BusyIntervalsKeepStack` | TappySwipey/ViewControllers/BaseGameViewController.swift:71-78 | If at least one action arrives in every tick interval, the stack holds everything appended, in order. |
| `Session.GameSession.constructor` | TappySwipey/ViewControllers/BaseGameViewController.swift:16-22 | A new session has 0 points, diminishing returns off, an empty stack, the flag clear and no counters. |
| `Session.GameSession.ViewDidLoad` | TappySwipey/ViewControllers/BaseGameViewController.swift:24-30 | Every catalog title gets a zero counter, other counters are kept, and the combo timer is scheduled. Score and stack are untouched. |
| `Session.GameSession.ConfigureActionsForGameplay` | TappySwipey/ViewControllers/BaseGameViewController.swift:40-47 | Every catalog title gets a counter of 0, which is the precondition of `PerformAction`. Counters for other titles are unchanged. |
| `Session.GameSession.InitCounters` | TappySwipey/ViewControllers/BaseGameViewController.swift:41-46 | The loop sets a zero counter for each visited action's title and leaves every other counter as it was. |
| `Session.GameSession.StartComboTimer` | TappySwipey/ViewControllers/BaseGameViewController.swift:70-79 | The combo timer is scheduled. |
| `Session.GameSession.ComboTick` | TappySwipey/ViewControllers/BaseGameViewController.swift:71-78 | While the timer is live, the stack and flag become `AfterComboTick` of the old ones. An invalidated timer changes nothing. |
| `Session.GameSession.AddPoints` | TappySwipey/ViewControllers/BaseGameViewController.swift:84-87 | The total grows by exactly the amount given. |
| `Session.GameSession.AddActionToComboStack` | TappySwipey/ViewControllers/BaseGameViewController.swift:95-98 | The title is appended to the stack and the reset flag is cleared. |
| `Session.GameSession.CheckForCombo` | TappySwipey/ViewControllers/BaseGameViewController.swift:103-106 | Reports no combo for every state. |
| `Session.GameSession.UserPerformedCombo` | TappySwipey/ViewControllers/BaseGameViewController.swift:114-117 | Needs `0 <= n <= |stack|`. The stack loses its last `n` entries and gains the combo's title. The combo is then counted and scored like any action. |
| `Session.GameSession.PerformAction` | TappySwipey/ViewControllers/BaseGameViewController.swift:142-154 | Appends the title and bumps only that title's counter by one. It adds `Award(value, new counter, diminishing)` to the score. The first firing scores the full value, and a non-negative value never lowers the score. |
| `Timed.Ended` | TappySwipey/ViewControllers/TimedGameViewController.swift:40-45 | `end()` leaves the session loading and the game timer invalidated. The time left is kept. |
| `Timed.AfterGameTick` | TappySwipey/ViewControllers/TimedGameViewController.swift:28-36 | A tick of an invalidated timer, or a tick while loading, leaves the countdown state unchanged. A live tick while not loading takes exactly 1 ms off. It ends the session, and invalidates the timer, exactly when no time is left. |
| `Timed.EndIsFinal` | TappySwipey/ViewControllers/TimedGameViewController.swift:40-45 | `end()` is idempotent. After it, ticks change nothing. |
| `Timed.CountdownRun` | TappySwipey/ViewControllers/TimedGameViewController.swift:28-36 | From `m >= 1` ms, `n` ticks leave `m - n` ms while `n < m`. From the `m`-th tick on, the clock is ended at 0 ms. |
| `Timed.TimedGameLength` | TappySwipey/ViewControllers/TimedGameViewController.swift:14-36 | Starting from 60 000 ms, the clock never goes negative. The game is over after `n` ticks exactly when `n >= 60000`. |
| `Timed.TimedGame.constructor` | TappySwipey/ViewControllers/TimedGameViewController.swift:13-14 | A timed game starts with 60 000 ms and no game timer. Its fresh session has 0 points, an empty combo stack with the reset flag clear, no counters, diminishing returns off and no combo timer. |
| `Timed.TimedGame.ViewDidLoad` | TappySwipey/ViewControllers/TimedGameViewController.swift:17-20 | Runs the base set-up, then turns on diminishing returns. |
| `Timed.TimedGame.Start` | TappySwipey/ViewControllers/TimedGameViewController.swift:26-28 | The game timer is scheduled. |
| `Timed.TimedGame.GameTick` | TappySwipey/ViewControllers/TimedGameViewController.swift:28-36 | The countdown state becomes `AfterGameTick` of the old one. The combo timer is invalidated exactly when this tick ends the game. While loading, nothing changes. |
| `Timed.TimedGame.End` | TappySwipey/ViewControllers/TimedGameViewController.swift:40-45 | Sets `loading` and invalidates both timers. Time, score, stack and counters are untouched. |
| `Timed.SingleTapThreeTimes` | TappySwipey/ViewControllers/TimedGameViewController.swift:17-20 | In timed mode, three firings of "Single Tap" score 1000 + 500 + 333 = 1833. |

## Left out

- Gesture-recognizer construction and wiring are UIKit glue: `configureGestureRecognizer`, the `perform` selector, the weak `delegate` and `addGestureRecognizer`. A recognizer is represented by the catalog action it was built from.
- `Timer.scheduledTimer` and run-loop delivery are not modelled. Each timer firing is an explicit `ComboTick()` or `GameTick()` call, and there is no ordering between the two timers.
- Label updates are presentation: `updatePointsLabel` with its `NumberFormatter`, `updateTopLabel` with its `Double` division, and the `print` call in `performAction`.
- The `paused` property is declared but never read or written by these files, so it is omitted.
- The base controller's `start()` and `end()` and the declaration of `loading` are not part of this model. `loading` is a field of `GameSession`, its first value is a constructor parameter, and `TimedGame.Start` models only the scheduling of the game timer.
- Timed.TimedGame.Start: a second call to `start()` would schedule a second game timer. One boolean flag cannot represent two live timers.
- Session.GameSession.PerformAction: Swift traps when `points` or a counter overflows a 64-bit `Int`. The model's integers are unbounded.
- No combo pattern exists in the source, so no combo-detection algorithm is modelled.
