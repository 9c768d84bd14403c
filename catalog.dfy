/**
 * The fixed catalog of gestures the game recognises (TappySwipey/Actions.swift).
 *
 * The source's class hierarchy Action / TapAction / SwipeAction becomes one
 * record whose `kind` is a closed variant: a tap carries its tap count, a swipe
 * its direction. The catalog itself is constant data: `Taps`, `Swipes` and `All`.
 */
module Catalog {

  /** The four swipe directions the catalog uses. */
  datatype Direction = Up | Down | Left | Right

  /** The gesture-specific discriminator of an action. */
  datatype Kind = Tap(taps: int) | Swipe(direction: Direction)

  /**
   * One catalog entry: its title (also the key of the repeat counters), its
   * base point value and the number of fingers it needs.
   */
  datatype Action = Action(title: string, value: int, touches: int, kind: Kind)

  /** A definition the game can recognise: positive value, one to four fingers, one to four taps. */
  predicate WellFormed(a: Action)
  {
    a.value > 0 && 1 <= a.touches <= 4 && (a.kind.Tap? ==> 1 <= a.kind.taps <= 4)
  }

  const Taps: seq<Action> := [
    Action("Single Tap", 1_000, 1, Tap(1)),
    Action("Double Tap", 2_000, 1, Tap(2)),
    Action("Triple Tap", 3_000, 1, Tap(3)),
    Action("Quadruple Tap", 4_000, 1, Tap(4)),
    Action("Two-Finger Single Tap", 2_000, 2, Tap(1)),
    Action("Two-Finger Double Tap", 4_000, 2, Tap(2)),
    Action("Two-Finger Triple Tap", 6_000, 2, Tap(3)),
    Action("Two-Finger Quadruple Tap", 8_000, 2, Tap(4)),
    Action("Three-Finger Single Tap", 3_000, 3, Tap(1)),
    Action("Three-Finger Double Tap", 6_000, 3, Tap(2)),
    Action("Three-Finger Triple Tap", 9_000, 3, Tap(3)),
    Action("Three-Finger Quadruple Tap", 12_000, 3, Tap(4)),
    Action("Four-Finger Single Tap", 4_000, 4, Tap(1)),
    Action("Four-Finger Double Tap", 8_000, 4, Tap(2)),
    Action("Four-Finger Triple Tap", 12_000, 4, Tap(3)),
    Action("Four-Finger Quadruple Tap", 16_000, 4, Tap(4))
  ]

  const Swipes: seq<Action> := [
    Action("Swipe Up", 1_000, 1, Swipe(Up)),
    Action("Swipe Down", 1_000, 1, Swipe(Down)),
    Action("Swipe Left", 1_000, 1, Swipe(Left)),
    Action("Swipe Right", 1_000, 1, Swipe(Right)),
    Action("Two-Finger Swipe Up", 1_000, 2, Swipe(Up)),
    Action("Two-Finger Swipe Down", 1_000, 2, Swipe(Down)),
    Action("Two-Finger Swipe Left", 1_000, 2, Swipe(Left)),
    Action("Two-Finger Swipe Right", 1_000, 2, Swipe(Right)),
    Action("Three-Finger Swipe Up", 1_000, 3, Swipe(Up)),
    Action("Three-Finger Swipe Down", 1_000, 3, Swipe(Down)),
    Action("Three-Finger Swipe Left", 1_000, 3, Swipe(Left)),
    Action("Three-Finger Swipe Right", 1_000, 3, Swipe(Right)),
    Action("Four-Finger Swipe Up", 1_000, 4, Swipe(Up)),
    Action("Four-Finger Swipe Down", 1_000, 4, Swipe(Down)),
    Action("Four-Finger Swipe Left", 1_000, 4, Swipe(Left)),
    Action("Four-Finger Swipe Right", 1_000, 4, Swipe(Right))
  ]

  /** Every action: the taps followed by the swipes. */
  const All: seq<Action> := Taps + Swipes

  /** The directions in the order each finger count lists them. */
  const Directions: seq<Direction> := [Up, Down, Left, Right]

  /** Taps are listed by finger count, then by tap count, both running from 1 to 4. */
  lemma TapsLayout()
    ensures |Taps| == 16
    ensures forall i | 0 <= i < 16 :: Taps[i].touches == i / 4 + 1 && Taps[i].kind == Tap(i % 4 + 1)
  {
  }

  /** Swipes are listed by finger count, then by direction in the order of `Directions`. */
  lemma SwipesLayout()
    ensures |Swipes| == 16
    ensures forall i | 0 <= i < 16 :: Swipes[i].touches == i / 4 + 1 && Swipes[i].kind == Swipe(Directions[i % 4])
  {
  }

  /** A tap is worth a thousand points per finger per tap. */
  lemma TapValues()
    ensures forall i | 0 <= i < |Taps| :: Taps[i].kind.Tap? && Taps[i].value == Taps[i].touches * Taps[i].kind.taps * 1000
  {
  }

  /** A swipe is worth a thousand points whatever the finger count. */
  lemma SwipeValues()
    ensures forall i | 0 <= i < |Swipes| :: Swipes[i].kind.Swipe? && Swipes[i].value == 1000
  {
  }

  /** Some tap needs `touches` fingers and `taps` taps. */
  predicate HasTap(touches: int, taps: int)
  {
    exists a :: a in Taps && a.touches == touches && a.kind == Tap(taps)
  }

  /** There is a tap for a (fingers, taps) pair exactly when both lie in 1..4. */
  lemma TapsCoverGrid()
    ensures forall touches, taps :: HasTap(touches, taps) <==> (1 <= touches <= 4 && 1 <= taps <= 4)
  {
    TapsLayout();
    forall touches, taps ensures HasTap(touches, taps) <==> (1 <= touches <= 4 && 1 <= taps <= 4) {
      if 1 <= touches <= 4 && 1 <= taps <= 4 {
        var i := (touches - 1) * 4 + (taps - 1);
        assert Taps[i].touches == touches && Taps[i].kind == Tap(taps);
      }
      if HasTap(touches, taps) {
        var a :| a in Taps && a.touches == touches && a.kind == Tap(taps);
        var i :| 0 <= i < |Taps| && Taps[i] == a;
      }
    }
  }

  /** No two taps share a (fingers, taps) pair. */
  lemma TapKeysUnique()
    ensures forall i, j | 0 <= i < j < |Taps| :: Taps[i].touches != Taps[j].touches || Taps[i].kind != Taps[j].kind
  {
    TapsLayout();
  }

  /** Some swipe needs `touches` fingers and goes in direction `d`. */
  predicate HasSwipe(touches: int, d: Direction)
  {
    exists a :: a in Swipes && a.touches == touches && a.kind == Swipe(d)
  }

  /** There is a swipe for a (fingers, direction) pair exactly when the finger count lies in 1..4. */
  lemma SwipesCoverGrid()
    ensures forall touches, d :: HasSwipe(touches, d) <==> 1 <= touches <= 4
  {
    SwipesLayout();
    forall touches, d ensures HasSwipe(touches, d) <==> 1 <= touches <= 4 {
      if 1 <= touches <= 4 {
        var k := match d case Up => 0 case Down => 1 case Left => 2 case Right => 3;
        var i := (touches - 1) * 4 + k;
        assert Swipes[i].touches == touches && Swipes[i].kind == Swipe(d);
      }
      if HasSwipe(touches, d) {
        var a :| a in Swipes && a.touches == touches && a.kind == Swipe(d);
        var i :| 0 <= i < |Swipes| && Swipes[i] == a;
      }
    }
  }

  /** No two swipes share a (fingers, direction) pair. */
  lemma SwipeKeysUnique()
    ensures forall i, j | 0 <= i < j < |Swipes| :: Swipes[i].touches != Swipes[j].touches || Swipes[i].kind != Swipes[j].kind
  {
    SwipesLayout();
  }

  /** `All` holds the 16 taps in their order, then the 16 swipes in theirs. */
  lemma AllLayout()
    ensures |All| == 32
    ensures forall i | 0 <= i < 16 :: All[i] == Taps[i] && All[16 + i] == Swipes[i]
    ensures forall i | 0 <= i < |All| :: All[i].kind.Tap? <==> i < 16
  {
  }

  /** Every catalog entry is well formed. */
  lemma AllWellFormed()
    ensures forall i | 0 <= i < |All| :: WellFormed(All[i])
  {
  }

  /**
   * A cheap summary of a title: its length, first character and the characters
   * two and seven places from its end. Titles with different fingerprints differ.
   */
  function Fingerprint(t: string): (int, char, char, char)
  {
    if |t| < 7 then (|t|, ' ', ' ', ' ') else (|t|, t[0], t[|t| - 2], t[|t| - 7])
  }

  /** The fingerprints of the catalog titles, in catalog order. */
  const TitlePrints: seq<(int, char, char, char)> := [
    (10, 'S', 'a', 'g'), (10, 'D', 'a', 'b'), (10, 'T', 'a', 'p'), (13, 'Q', 'a', 'p'),
    (21, 'T', 'a', 'g'), (21, 'T', 'a', 'b'), (21, 'T', 'a', 'p'), (24, 'T', 'a', 'p'),
    (23, 'T', 'a', 'g'), (23, 'T', 'a', 'b'), (23, 'T', 'a', 'p'), (26, 'T', 'a', 'p'),
    (22, 'F', 'a', 'g'), (22, 'F', 'a', 'b'), (22, 'F', 'a', 'p'), (25, 'F', 'a', 'p'),
    (8, 'S', 'U', 'w'), (10, 'S', 'w', 'p'), (10, 'S', 'f', 'p'), (11, 'S', 'h', 'e'),
    (19, 'T', 'U', 'w'), (21, 'T', 'w', 'p'), (21, 'T', 'f', 'p'), (22, 'T', 'h', 'e'),
    (21, 'T', 'U', 'w'), (23, 'T', 'w', 'p'), (23, 'T', 'f', 'p'), (24, 'T', 'h', 'e'),
    (20, 'F', 'U', 'w'), (22, 'F', 'w', 'p'), (22, 'F', 'f', 'p'), (23, 'F', 'h', 'e')
  ]

  lemma TapPrintsLow()
    ensures forall i | 0 <= i < 8 :: Fingerprint(Taps[i].title) == TitlePrints[i]
  {
  }

  lemma TapPrintsHigh()
    ensures forall i | 8 <= i < 16 :: Fingerprint(Taps[i].title) == TitlePrints[i]
  {
  }

  lemma SwipePrintsLow()
    ensures forall i | 0 <= i < 8 :: Fingerprint(Swipes[i].title) == TitlePrints[16 + i]
  {
  }

  lemma SwipePrintsHigh()
    ensures forall i | 8 <= i < 16 :: Fingerprint(Swipes[i].title) == TitlePrints[16 + i]
  {
  }

  lemma PrintsDistinct()
    ensures forall i, j | 0 <= i < j < |TitlePrints| :: TitlePrints[i] != TitlePrints[j]
  {
  }

  /** All 32 titles are pairwise distinct, so a title identifies its action. */
  lemma TitlesDistinct()
    ensures forall i, j | 0 <= i < j < |All| :: All[i].title != All[j].title
  {
    AllLayout();
    TapPrintsLow();
    TapPrintsHigh();
    SwipePrintsLow();
    SwipePrintsHigh();
    PrintsDistinct();
    forall i | 0 <= i < |All| ensures Fingerprint(All[i].title) == TitlePrints[i] {
      if i >= 16 {
        assert All[i] == Swipes[i - 16];
      }
    }
  }
}
