/**
 * The gameplay session every game mode shares
 * (TappySwipey/ViewControllers/BaseGameViewController.swift): the tap-conflict
 * rule, the combo stack with its once-a-second reset tick, the per-title
 * repeat counters and the scoring rule.
 */
module Session {
  import Catalog

  // ---------------------------------------------------------------------------
  // Gesture conflicts
  // ---------------------------------------------------------------------------

  /**
   * Whether the recognizer built for `recognizer` must wait for the one built
   * for `other` to fail: only between two taps, with the same finger count,
   * where the first needs strictly fewer taps.
   */
  predicate ShouldRequireFailureOf(recognizer: Catalog.Action, other: Catalog.Action)
    ensures ShouldRequireFailureOf(recognizer, other) ==>
      recognizer.kind.Tap? && other.kind.Tap? && recognizer.touches == other.touches && recognizer.kind.taps < other.kind.taps
  {
    match (recognizer.kind, other.kind)
    case (Tap(taps), Tap(otherTaps)) => recognizer.touches == other.touches && taps < otherTaps
    case _ => false
  }

  /** The rule holds exactly between same-finger taps where the first needs fewer taps; never when a swipe is involved. */
  lemma ConflictCharacterised(a: Catalog.Action, b: Catalog.Action)
    ensures ShouldRequireFailureOf(a, b) <==>
      a.kind.Tap? && b.kind.Tap? && a.touches == b.touches && a.kind.taps < b.kind.taps
    ensures a.kind.Swipe? || b.kind.Swipe? ==> !ShouldRequireFailureOf(a, b)
    ensures a.touches != b.touches ==> !ShouldRequireFailureOf(a, b)
  {
  }

  /** Over any actions the rule is a strict partial order: irreflexive, asymmetric and transitive. */
  lemma ConflictStrictOrder(a: Catalog.Action, b: Catalog.Action, c: Catalog.Action)
    ensures !ShouldRequireFailureOf(a, a)
    ensures ShouldRequireFailureOf(a, b) ==> !ShouldRequireFailureOf(b, a)
    ensures ShouldRequireFailureOf(a, b) && ShouldRequireFailureOf(b, c) ==> ShouldRequireFailureOf(a, c)
  {
  }

  /**
   * Between two different catalog taps with the same finger count exactly one
   * waits for the other, so every pair that could both match is ordered.
   */
  lemma CatalogTapsTotallyOrdered()
    ensures forall i, j | 0 <= i < |Catalog.Taps| && 0 <= j < |Catalog.Taps| && i != j && Catalog.Taps[i].touches == Catalog.Taps[j].touches ::
      ShouldRequireFailureOf(Catalog.Taps[i], Catalog.Taps[j]) != ShouldRequireFailureOf(Catalog.Taps[j], Catalog.Taps[i])
  {
    Catalog.TapsLayout();
    Catalog.TapKeysUnique();
    forall i, j | 0 <= i < |Catalog.Taps| && 0 <= j < |Catalog.Taps| && i != j && Catalog.Taps[i].touches == Catalog.Taps[j].touches
      ensures ShouldRequireFailureOf(Catalog.Taps[i], Catalog.Taps[j]) != ShouldRequireFailureOf(Catalog.Taps[j], Catalog.Taps[i])
    {
      if i < j {
        assert Catalog.Taps[i].kind != Catalog.Taps[j].kind;
      } else {
        assert Catalog.Taps[j].kind != Catalog.Taps[i].kind;
      }
    }
  }

  // ---------------------------------------------------------------------------
  // Scoring
  // ---------------------------------------------------------------------------

  /** Swift's integer `/`, which truncates toward zero (Dafny's rounds toward minus infinity for negative `a`). */
  function TruncDiv(a: int, b: int): (q: int)
    requires b > 0
    ensures a >= 0 ==> 0 <= q <= a && q * b <= a < q * b + b
    ensures a < 0 ==> a <= q <= 0 && a <= q * b < a + b
  {
    if a >= 0 then DivBounds(a, b); a / b else DivBounds(-a, b); -((-a) / b)
  }

  /** Euclidean division of a non-negative number, bounded on both sides. */
  lemma DivBounds(a: int, b: int)
    requires a >= 0 && b > 0
    ensures 0 <= a / b <= a
    ensures (a / b) * b <= a < (a / b) * b + b
  {
    assert a == (a / b) * b + a % b;
    MulMonotone(1, b, a / b);
  }

  /** Multiplying by a non-negative factor keeps order. */
  lemma MulMonotone(x: int, y: int, k: int)
    requires x <= y && k >= 0
    ensures x * k <= y * k
  {
  }

  /**
   * Points awarded for one firing of an action worth `value` whose counter has
   * just reached `counter`: the full value, or the value divided by the counter
   * when diminishing returns are on.
   */
  function Award(value: int, counter: int, diminishing: bool): (points: int)
    requires counter >= 1
    ensures !diminishing || counter == 1 ==> points == value
    ensures value >= 0 ==> 0 <= points <= value
    ensures diminishing && value >= 0 ==> points * counter <= value < points * counter + counter
  {
    if diminishing then TruncDiv(value, counter) else value
  }

  /** Under diminishing returns a later firing never earns more than an earlier one. */
  lemma AwardDiminishes(value: int, n: int, m: int)
    requires value >= 0 && 1 <= n <= m
    ensures Award(value, m, true) <= Award(value, n, true)
  {
    var p, q := Award(value, n, true), Award(value, m, true);
    MulMonotone(n, m, q);
    assert q * n < (p + 1) * n;
    MulCancel(q, p + 1, n);
  }

  /** A positive factor can be cancelled from a strict inequality. */
  lemma MulCancel(x: int, y: int, k: int)
    requires k > 0 && x * k < y * k
    ensures x < y
  {
  }

  // ---------------------------------------------------------------------------
  // Combo stack
  // ---------------------------------------------------------------------------

  /** The combo stack with its "clear on the next tick" flag. */
  datatype ComboState = ComboState(stack: seq<string>, shouldReset: bool)

  /**
   * Appending a title: it goes at the end, everything already on the stack is
   * kept, and the pending clear is called off.
   */
  function Pushed(c: ComboState, title: string): (r: ComboState)
    ensures |r.stack| == |c.stack| + 1
    ensures r.stack[..|c.stack|] == c.stack && r.stack[|c.stack|] == title
    ensures !r.shouldReset
  {
    ComboState(c.stack + [title], false)
  }

  /**
   * One firing of the combo timer: it empties the stack when the flag was set,
   * keeps it otherwise, and always leaves the flag set.
   */
  function AfterComboTick(c: ComboState): (r: ComboState)
    ensures r.shouldReset
    ensures c.shouldReset ==> r.stack == []
    ensures !c.shouldReset ==> r.stack == c.stack
  {
    ComboState(if c.shouldReset then [] else c.stack, true)
  }

  /** Two ticks with nothing appended in between leave the stack empty. */
  lemma IdleIntervalFlushes(c: ComboState)
    ensures AfterComboTick(AfterComboTick(c)).stack == []
  {
  }

  /** Appending a sequence of titles one after another. */
  function PushedAll(c: ComboState, titles: seq<string>): ComboState
    decreases |titles|
  {
    if titles == [] then c else PushedAll(Pushed(c, titles[0]), titles[1..])
  }

  /** The titles of one interval after another, in order. */
  function Flatten(intervals: seq<seq<string>>): seq<string>
    decreases |intervals|
  {
    if intervals == [] then [] else intervals[0] + Flatten(intervals[1..])
  }

  /** Each interval's titles are appended, then the combo timer fires. */
  function AfterIntervals(c: ComboState, intervals: seq<seq<string>>): ComboState
    decreases |intervals|
  {
    if intervals == [] then c else AfterIntervals(AfterComboTick(PushedAll(c, intervals[0])), intervals[1..])
  }

  lemma {:induction false} PushedAllAppends(c: ComboState, titles: seq<string>)
    ensures PushedAll(c, titles).stack == c.stack + titles
    ensures titles != [] ==> !PushedAll(c, titles).shouldReset
    ensures titles == [] ==> PushedAll(c, titles) == c
    decreases |titles|
  {
    if titles != [] {
      PushedAllAppends(Pushed(c, titles[0]), titles[1..]);
      assert c.stack + [titles[0]] + titles[1..] == c.stack + titles;
    }
  }

  /**
   * While at least one action arrives in every interval the tick never clears
   * the stack: it holds everything appended, in order.
   */
  lemma {:induction false} BusyIntervalsKeepStack(c: ComboState, intervals: seq<seq<string>>)
    requires forall k | 0 <= k < |intervals| :: intervals[k] != []
    ensures AfterIntervals(c, intervals).stack == c.stack + Flatten(intervals)
    decreases |intervals|
  {
    if intervals != [] {
      PushedAllAppends(c, intervals[0]);
      var next := AfterComboTick(PushedAll(c, intervals[0]));
      assert next.stack == c.stack + intervals[0];
      BusyIntervalsKeepStack(next, intervals[1..]);
      assert c.stack + intervals[0] + Flatten(intervals[1..]) == c.stack + Flatten(intervals);
    }
  }

  // ---------------------------------------------------------------------------
  // The session object
  // ---------------------------------------------------------------------------

  /** Some action of `actions` has title `t`. */
  predicate TitleAmong(actions: seq<Catalog.Action>, t: string)
  {
    exists k | 0 <= k < |actions| :: actions[k].title == t
  }

  /** The game-session state of BaseGameViewController. */
  class GameSession {
    var points: int
    var pointValuesShouldDecrease: bool
    var comboStack: seq<string>
    var shouldResetComboStack: bool
    var actionCounters: map<string, int>
    /** Whether the session is loading or has ended (no gameplay). */
    var loading: bool
    /** Whether the repeating combo timer is scheduled and not yet invalidated. */
    var comboTimerActive: bool

    /** Repeat counters never go negative. */
    ghost predicate Valid()
      reads this
    {
      forall t | t in actionCounters :: actionCounters[t] >= 0
    }

    /** The combo stack together with its reset flag. */
    function Combo(): ComboState
      reads this
    {
      ComboState(comboStack, shouldResetComboStack)
    }

    /** The stored property values; `loading` is set by code that is not part of this model. */
    constructor (loading: bool)
      ensures Valid()
      ensures points == 0 && !pointValuesShouldDecrease
      ensures comboStack == [] && !shouldResetComboStack && actionCounters == map[]
      ensures this.loading == loading && !comboTimerActive
    {
      points := 0;
      pointValuesShouldDecrease := false;
      comboStack := [];
      shouldResetComboStack := false;
      actionCounters := map[];
      this.loading := loading;
      comboTimerActive := false;
    }

    /** Prepares for play: counters for every catalog action, then the combo timer. */
    method ViewDidLoad()
      requires Valid()
      modifies this
      ensures Valid()
      ensures forall i | 0 <= i < |Catalog.All| :: Catalog.All[i].title in actionCounters && actionCounters[Catalog.All[i].title] == 0
      ensures forall t | t in actionCounters && !TitleAmong(Catalog.All, t) :: t in old(actionCounters) && actionCounters[t] == old(actionCounters)[t]
      ensures forall t | t in old(actionCounters) :: t in actionCounters
      ensures comboTimerActive
      ensures points == old(points) && pointValuesShouldDecrease == old(pointValuesShouldDecrease)
      ensures Combo() == old(Combo()) && loading == old(loading)
    {
      ConfigureActionsForGameplay();
      StartComboTimer();
    }

    /** Gives every catalog title a counter of zero; other counters stay as they were. */
    method ConfigureActionsForGameplay()
      requires Valid()
      modifies this`actionCounters
      ensures Valid()
      ensures forall i | 0 <= i < |Catalog.All| :: Catalog.All[i].title in actionCounters && actionCounters[Catalog.All[i].title] == 0
      ensures forall t | t in actionCounters && !TitleAmong(Catalog.All, t) :: t in old(actionCounters) && actionCounters[t] == old(actionCounters)[t]
      ensures forall t | t in old(actionCounters) :: t in actionCounters
    {
      InitCounters(Catalog.All);
    }

    /** The loop of ConfigureActionsForGameplay, over the actions it visits in order. */
    method InitCounters(actions: seq<Catalog.Action>)
      requires Valid()
      modifies this`actionCounters
      ensures Valid()
      ensures forall i | 0 <= i < |actions| :: actions[i].title in actionCounters && actionCounters[actions[i].title] == 0
      ensures forall t | t in actionCounters && !TitleAmong(actions, t) :: t in old(actionCounters) && actionCounters[t] == old(actionCounters)[t]
      ensures forall t | t in old(actionCounters) :: t in actionCounters
    {
      var i := 0;
      while i < |actions|
        invariant 0 <= i <= |actions|
        invariant Valid()
        invariant forall k | 0 <= k < i :: actions[k].title in actionCounters && actionCounters[actions[k].title] == 0
        invariant forall t | t in actionCounters && !TitleAmong(actions[..i], t) :: t in old(actionCounters) && actionCounters[t] == old(actionCounters)[t]
        invariant forall t | t in old(actionCounters) :: t in actionCounters
      {
        var action := actions[i];
        actionCounters := actionCounters[action.title := 0];
        assert actions[..i + 1][i] == action;
        assert forall t | TitleAmong(actions[..i], t) :: TitleAmong(actions[..i + 1], t) by {
          forall t | TitleAmong(actions[..i], t) ensures TitleAmong(actions[..i + 1], t) {
            var k :| 0 <= k < i && actions[..i][k].title == t;
            assert actions[..i + 1][k].title == t;
          }
        }
        i := i + 1;
      }
      assert actions[..i] == actions;
    }

    /** Schedules the repeating combo timer. */
    method StartComboTimer()
      requires Valid()
      modifies this`comboTimerActive
      ensures Valid()
      ensures comboTimerActive
    {
      comboTimerActive := true;
    }

    /** One delivery of the combo timer; an invalidated timer delivers nothing. */
    method ComboTick()
      requires Valid()
      modifies this`comboStack, this`shouldResetComboStack
      ensures Valid()
      ensures Combo() == if comboTimerActive then AfterComboTick(old(Combo())) else old(Combo())
    {
      if comboTimerActive {
        if shouldResetComboStack {
          comboStack := [];
        }
        shouldResetComboStack := true;
      }
    }

    /** Adds `p` to the running total. */
    method AddPoints(p: int)
      requires Valid()
      modifies this`points
      ensures Valid()
      ensures points == old(points) + p
    {
      points := points + p;
    }

    /** Appends the action's title to the combo stack and calls off the pending clear. */
    method AddActionToComboStack(action: Catalog.Action)
      requires Valid()
      modifies this`comboStack, this`shouldResetComboStack
      ensures Valid()
      ensures Combo() == Pushed(old(Combo()), action.title)
    {
      comboStack := comboStack + [action.title];
      shouldResetComboStack := false;
    }

    /** The combo detector: no combo patterns exist, so it reports none for every stack. */
    function CheckForCombo(): (found: bool)
      reads this
      ensures !found
    {
      false
    }

    /**
     * Handles one firing of `action`: appends it to the combo stack, bumps its
     * counter and awards its points. The title must already have a counter
     * (the source force-unwraps the dictionary entry).
     */
    method PerformAction(action: Catalog.Action)
      requires Valid()
      requires action.title in actionCounters
      modifies this`comboStack, this`shouldResetComboStack, this`actionCounters, this`points
      ensures Valid()
      ensures Combo() == Pushed(old(Combo()), action.title)
      ensures actionCounters == old(actionCounters)[action.title := old(actionCounters)[action.title] + 1]
      ensures points == old(points) + Award(action.value, actionCounters[action.title], pointValuesShouldDecrease)
      ensures old(actionCounters)[action.title] == 0 ==> points == old(points) + action.value
      ensures action.value >= 0 ==> old(points) <= points <= old(points) + action.value
    {
      AddActionToComboStack(action);
      if CheckForCombo() {
        return;
      }
      actionCounters := actionCounters[action.title := actionCounters[action.title] + 1];
      var counter := actionCounters[action.title];
      var awarded := if pointValuesShouldDecrease then TruncDiv(action.value, counter) else action.value;
      AddPoints(awarded);
    }

    /**
     * A recognised combo: its `actionCount` constituent titles leave the top of
     * the stack and the combo itself is performed as an action.
     */
    method UserPerformedCombo(combo: Catalog.Action, actionCount: int)
      requires Valid()
      requires 0 <= actionCount <= |comboStack|
      requires combo.title in actionCounters
      modifies this`comboStack, this`shouldResetComboStack, this`actionCounters, this`points
      ensures Valid()
      ensures comboStack == old(comboStack)[..|old(comboStack)| - actionCount] + [combo.title]
      ensures !shouldResetComboStack
      ensures actionCounters == old(actionCounters)[combo.title := old(actionCounters)[combo.title] + 1]
      ensures points == old(points) + Award(combo.value, actionCounters[combo.title], pointValuesShouldDecrease)
    {
      comboStack := comboStack[..|comboStack| - actionCount];
      PerformAction(combo);
    }
  }
}
