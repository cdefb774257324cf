/** The infinite, draggable features carousel (`CE_Features`): N cards are laid
    out three times over in one strip that is translated horizontally by an
    offset `x`.  A looping animation moves the strip one cycle (N card widths)
    to the left every 20 seconds; dragging stops it, and releasing snaps `x` to
    a group of four cards, moves it back into the middle copy of the strip and
    restarts the loop from a wrapped offset.

    Pixel values are exact reals here; the source computes with doubles. */
module Carousel {
  import opened JsMath
  import opened Wrappers

  /** The content of one card (the icon element is kept as its text). */
  datatype Card = Card(title: string, description: string, icon: string)

  /** How many cards fill the visible slider: a card is a quarter of its width. */
  const VisibleCards: real := 4.0
  /** How many cards one snap step spans on release. */
  const SnapGroup: nat := 4
  /** Seconds the looping animation takes to travel one cycle. */
  const LoopDuration: real := 20.0

  // ---------------------------------------------------------------------------
  // The strip

  /** The rendered strip: the cards three times over, so that slides i,
      i + N and i + 2N all show card i (slide j shows card j mod N). */
  function Tripled<T>(items: seq<T>): (s: seq<T>)
    ensures |s| == 3 * |items|
    ensures forall i :: 0 <= i < |items| ==>
              s[i] == items[i] && s[i + |items|] == items[i] && s[i + 2 * |items|] == items[i]
  {
    items + items + items
  }

  // ---------------------------------------------------------------------------
  // Snapping on release

  /** `Math.round(x / step) * step`: the multiple of step nearest to x, a tie
      going to the larger one. */
  function SnapPoint(x: real, step: real): (r: real)
    requires step > 0.0
    ensures IsMultipleOf(r, step)
    ensures x - step / 2.0 < r <= x + step / 2.0
  {
    var k := Round(x / step);
    ScaledWindow(x, step, k);
    Multiple(k, step)
  }

  /** Multiplying through by step: the k-th multiple of step lies within half
      a step of x exactly when k lies within one half of x / step. */
  lemma ScaledWindow(x: real, step: real, k: int)
    requires step > 0.0
    ensures (x - step / 2.0 < Multiple(k, step) <= x + step / 2.0)
        <==> (x / step - 0.5 < k as real <= x / step + 0.5)
  {
    ScaledBelow(x, step, k as real);
    ScaledAbove(x, step, k as real);
  }

  lemma ScaledBelow(x: real, step: real, kr: real)
    requires step > 0.0
    ensures (x - step / 2.0 < kr * step) <==> (x / step - 0.5 < kr)
  {
    var d := kr + 0.5 - x / step;
    assert kr * step - (x - step / 2.0) == d * step;
    assert d > 0.0 <==> d * step > 0.0;
  }

  lemma ScaledAbove(x: real, step: real, kr: real)
    requires step > 0.0
    ensures (kr * step <= x + step / 2.0) <==> (kr <= x / step + 0.5)
  {
    var d := x / step + 0.5 - kr;
    assert x + step / 2.0 - kr * step == d * step;
    assert d >= 0.0 <==> d * step >= 0.0;
  }

  /** The snap point is the only multiple of step in (x - step/2, x + step/2]. */
  lemma SnapPointUnique(x: real, step: real, k: int)
    requires step > 0.0
    requires x - step / 2.0 < Multiple(k, step) <= x + step / 2.0
    ensures SnapPoint(x, step) == Multiple(k, step)
  {
    ScaledWindow(x, step, k);
    RoundUnique(x / step, k);
  }

  /** Moving the released offset by whole steps moves the snap point with it. */
  lemma SnapPointShift(x: real, step: real, j: int)
    requires step > 0.0
    ensures SnapPoint(x + Multiple(j, step), step) == SnapPoint(x, step) + Multiple(j, step)
  {
    var k := Round(x / step);
    assert SnapPoint(x, step) == Multiple(k, step);
    assert Multiple(k, step) + Multiple(j, step) == Multiple(k + j, step);
    SnapPointUnique(x + Multiple(j, step), step, k + j);
  }

  /** With a snap step of 400 a release at -600, exactly between -800 and -400,
      snaps up to -400. */
  lemma SnapTieGoesUp()
    ensures SnapPoint(-600.0, 400.0) == -400.0
  {
    SnapPointUnique(-600.0, 400.0, -1);
  }

  // ---------------------------------------------------------------------------
  // Re-centering into the middle copy

  /** The re-centering step of the release handler: a snap point past the
      right edge (-cycle) of the middle band is moved one cycle left, one past
      the left edge (-2 cycle) one cycle right, and one inside stays.  It is a
      single shift, not a loop. */
  function Recenter(s: real, cycle: real): (r: real)
    requires cycle > 0.0
    ensures SameModulo(s, r, cycle)
    ensures r == s <==> -2.0 * cycle <= s <= -cycle
    ensures -3.0 * cycle <= s <= 0.0 ==> -2.0 * cycle <= r <= -cycle
    ensures s > 0.0 ==> r > -cycle
    ensures s < -3.0 * cycle ==> r < -2.0 * cycle
    ensures Abs(r - s) <= cycle
    ensures s > -cycle ==> r < s
    ensures s < -2.0 * cycle ==> r > s
  {
    var minX := -2.0 * cycle;
    var maxX := -cycle;
    var r :=
      if s > maxX then minX + (s - maxX)
      else if s < minX then maxX - (minX - s)
      else s;
    assert s - r == Multiple(if s > maxX then 1 else if s < minX then -1 else 0, cycle);
    r
  }

  /** Where the release handler leaves the offset: nothing happens before the
      card width is known; otherwise the snap point, re-centred. */
  function DragEndX(x: real, cardWidth: real, n: nat, group: nat): (r: real)
    requires cardWidth >= 0.0 && n >= 1 && group >= 1
    ensures cardWidth == 0.0 ==> r == x
    ensures cardWidth > 0.0 ==> SameModulo(SnapPoint(x, group as real * cardWidth), r, n as real * cardWidth)
  {
    if cardWidth == 0.0 then x
    else Recenter(SnapPoint(x, group as real * cardWidth), n as real * cardWidth)
  }

  /** After a release the strip rests strictly between -2 cycle and 0, on
      the snap point moved by whole cycles, so it shows the cards the snap
      point shows. */
  lemma ReleaseShowsSnappedCards(x: real, cardWidth: real, n: nat, group: nat)
    requires cardWidth > 0.0 && n >= 1 && group >= 1
    ensures SameModulo(SnapPoint(x, group as real * cardWidth),
                       Normalize(DragEndX(x, cardWidth, n, group), n as real * cardWidth),
                       n as real * cardWidth)
  {
    var step, cycle := group as real * cardWidth, n as real * cardWidth;
    var s := SnapPoint(x, step);
    var d := DragEndX(x, cardWidth, n, group);
    SameModuloTrans(s, d, Normalize(d, cycle), cycle);
  }

  /** A release within one cycle of the middle band (less half a snap step,
      so that the snap point is too) lands inside the band. */
  lemma DragEndInBand(x: real, cardWidth: real, n: nat, group: nat)
    requires cardWidth > 0.0 && n >= 1 && group >= 1
    requires -3.0 * (n as real * cardWidth) + (group as real * cardWidth) / 2.0 <= x
    requires x <= -(group as real * cardWidth) / 2.0
    ensures -2.0 * (n as real * cardWidth) <= DragEndX(x, cardWidth, n, group) <= -(n as real * cardWidth)
  {
    var step := group as real * cardWidth;
    var s := SnapPoint(x, step);
    assert -3.0 * (n as real * cardWidth) <= s <= 0.0;
  }

  /** When the snap group divides the number of cards, a cycle is a whole
      number of snap steps, so releasing one cycle further along shows the same
      cards: the two outcomes differ by whole cycles. */
  lemma DragEndCycleShift(x: real, cardWidth: real, n: nat, group: nat)
    requires cardWidth > 0.0 && n >= 1 && group >= 1 && n % group == 0
    ensures SameModulo(DragEndX(x + n as real * cardWidth, cardWidth, n, group),
                       DragEndX(x, cardWidth, n, group), n as real * cardWidth)
  {
    var step, cycle := group as real * cardWidth, n as real * cardWidth;
    var m := n / group;
    var r0, r1 := Recenter(SnapPoint(x, step), cycle), Recenter(SnapPoint(x + cycle, step), cycle);
    assert DragEndX(x, cardWidth, n, group) == r0 by { DragEndUnfold(x, cardWidth, n, group); }
    assert DragEndX(x + cycle, cardWidth, n, group) == r1 by { DragEndUnfold(x + cycle, cardWidth, n, group); }
    assert cycle == Multiple(m, step) by { CycleInSteps(n, group, cardWidth); }
    assert SameModulo(r1, r0, cycle) by { RecenterSnapCycleShift(x, step, cycle, m); }
  }

  lemma DragEndUnfold(x: real, cardWidth: real, n: nat, group: nat)
    requires cardWidth > 0.0 && n >= 1 && group >= 1
    ensures DragEndX(x, cardWidth, n, group)
         == Recenter(SnapPoint(x, group as real * cardWidth), n as real * cardWidth)
  {
  }

  /** The same over the snap step and the cycle themselves. */
  lemma RecenterSnapCycleShift(x: real, step: real, cycle: real, m: int)
    requires step > 0.0 && cycle > 0.0 && cycle == Multiple(m, step)
    ensures SameModulo(Recenter(SnapPoint(x + cycle, step), cycle),
                       Recenter(SnapPoint(x, step), cycle), cycle)
  {
    var s0 := SnapPoint(x, step);
    var s1 := SnapPoint(x + cycle, step);
    SnapPointShift(x, step, m);
    assert SameModulo(s1, s0, cycle) by { assert s1 - s0 == Multiple(1, cycle); }
    var r0, r1 := Recenter(s0, cycle), Recenter(s1, cycle);
    SameModuloSym(s1, r1, cycle);
    SameModuloTrans(r1, s1, s0, cycle);
    SameModuloTrans(r1, s0, r0, cycle);
  }

  lemma CycleInSteps(n: nat, group: nat, cardWidth: real)
    requires group >= 1 && n % group == 0
    ensures Multiple(n / group, group as real * cardWidth) == n as real * cardWidth
  {
    var m := n / group;
    assert n == m * group;
    assert n as real == m as real * group as real;
  }

  // ---------------------------------------------------------------------------
  // Wrapping the offset before the loop restarts

  /** `((x + cycle) % cycle) - cycle` with JavaScript's `%`: the offset the
      looping animation restarts from.  It lies strictly between -2 cycle and
      0, shows the same cards as x, and leaves an offset already in that range
      alone. */
  function Normalize(x: real, cycle: real): (r: real)
    requires cycle > 0.0
    ensures -2.0 * cycle < r < 0.0
    ensures SameModulo(x, r, cycle)
    ensures -2.0 * cycle < x < 0.0 ==> r == x
    ensures x + cycle >= 0.0 ==> -cycle <= r
    ensures x + cycle <= 0.0 ==> r <= -cycle
  {
    RemainderOfSmall(x + cycle, cycle);
    JsRem(x + cycle, cycle) - cycle
  }

  /** A dividend already smaller than the divisor in magnitude is its own
      remainder. */
  lemma RemainderOfSmall(y: real, m: real)
    requires m > 0.0
    ensures -m < y < m ==> JsRem(y, m) == y
  {
    if -m < y < m {
      var r := JsRem(y, m);
      var k: int :| y - r == Multiple(k, m);
      SmallMultipleIsZero(k, m);
    }
  }

  lemma SmallMultipleIsZero(k: int, m: real)
    requires m > 0.0 && -m < Multiple(k, m) < m
    ensures k == 0
  {
  }

  /** Wrapping twice is wrapping once. */
  lemma NormalizeIdempotent(x: real, cycle: real)
    requires cycle > 0.0
    ensures Normalize(Normalize(x, cycle), cycle) == Normalize(x, cycle)
  {
  }

  // ---------------------------------------------------------------------------
  // Concrete releases

  /** Six cards of width 200 (cycle 1200, snap step 800): a strip resting at
      -1200 and dragged by -50 is released at -1250; Math.round(-1.5625) is -2,
      so it snaps to -1600, which is inside [-2400, -1200] and wraps to itself. */
  lemma DragEndWorkedExample()
    ensures DragEndX(-1250.0, 200.0, 6, SnapGroup) == -1600.0
    ensures Normalize(-1600.0, 1200.0) == -1600.0
  {
    SnapPointUnique(-1250.0, 800.0, -2);
  }

  /** Releasing is not idempotent: with six cards of width 100 (cycle 600,
      snap step 400), -400 snaps to itself and is moved one cycle left to
      -1000, which is not a multiple of 400, so a second release moves it
      again, to -800. */
  lemma DragEndNotIdempotent()
    ensures DragEndX(-400.0, 100.0, 6, SnapGroup) == -1000.0
    ensures Normalize(-1000.0, 600.0) == -1000.0
    ensures DragEndX(-1000.0, 100.0, 6, SnapGroup) == -800.0
  {
    SnapPointUnique(-400.0, 400.0, -1);
    assert SnapPoint(-400.0, 400.0) == -400.0;
    assert Recenter(-400.0, 600.0) == -1000.0;
    SnapPointUnique(-1000.0, 400.0, -2);
    assert SnapPoint(-1000.0, 400.0) == -800.0;
    assert Recenter(-800.0, 600.0) == -800.0;
  }

  /** Six cards do not make a whole number of groups of four, so releasing one
      cycle further along can show different cards: with width 100, -1200
      stays at -1200 but -600 snaps to -400 and ends at -1000, 200 pixels (two
      cards) away modulo the cycle. */
  lemma CycleDragMayChangeCards()
    ensures DragEndX(-1200.0, 100.0, 6, SnapGroup) == -1200.0
    ensures DragEndX(-1200.0 + 600.0, 100.0, 6, SnapGroup) == -1000.0
    ensures !SameModulo(-1000.0, -1200.0, 600.0)
  {
    SnapPointUnique(-1200.0, 400.0, -3);
    SnapPointUnique(-600.0, 400.0, -1);
    forall k: int ensures 200.0 != Multiple(k, 600.0) {
      if k <= 0 {
        assert Multiple(k, 600.0) <= 0.0;
      } else {
        assert Multiple(k, 600.0) == 600.0 + Multiple(k - 1, 600.0);
        assert Multiple(k - 1, 600.0) >= 0.0;
      }
    }
  }

  // ---------------------------------------------------------------------------
  // The component

  /** The six cards of the features section. */
  const FeatureCards: seq<Card> :=
    [ Card("World-Class Representation",
           "Representing renowned companies in Banknote & Security Printing, Mint Industry, Security Paper Mills, and Smart Card Industry across India.",
           "globe"),
      Card("High-Value Tender Expertise",
           "Specialized in handling complex, high-value tenders with established credentials and proven track record since 1992.",
           "clipboard"),
      Card("Complete Supply Solutions",
           "Comprehensive supplier of machineries, raw materials, spares, and consumables for security printing and smart card industries.",
           "gear"),
      Card("Strategic Location",
           "Office located in Mumbai's business district with excellent connectivity to international airports and major highways.",
           "pin"),
      Card("Dedicated Warehouse Facility",
           "Modern warehouse for stocking spares, consumables, and raw materials ensuring quick delivery and reliable supply chain.",
           "factory"),
      Card("Expert After-Sales Support",
           "Team of 15+ professionals including skilled service engineers providing comprehensive after-sales support and maintenance.",
           "tools") ]

  datatype Ease = Linear
  datatype RepeatType = Loop

  /** The options of an animation start: how long one pass takes, its easing,
      whether it repeats forever and how each repetition begins. */
  datatype Transition = Transition(duration: real, ease: Ease, repeatForever: bool, repeatType: RepeatType)

  /** The endless loop: 20 seconds a pass, linear, repeated forever, each
      repetition starting again from the beginning. */
  const LoopTransition: Transition := Transition(LoopDuration, Linear, true, Loop)

  /** What the animation controls were last told: nothing running, or an
      animation of the offset toward target. */
  datatype Controls = Stopped | Running(target: real, transition: Transition)

  /** One mounted carousel: the motion value x, the measured card width (state
      that starts at 0) and the animation controls. */
  class FeaturesCarousel {
    const cards: seq<Card>
    const slides: seq<Card>
    var cardWidth: real
    var x: real
    var controls: Controls

    ghost predicate Valid()
      reads this`cardWidth
    {
      |cards| >= 1 && slides == Tripled(cards) && cardWidth >= 0.0
    }

    /** The width of one copy of the cards. */
    function Cycle(): real
      reads this`cardWidth
    {
      |cards| as real * cardWidth
    }

    /** Mounting: the strip is laid out, the offset motion value and the card
        width start at 0 and nothing is animating. */
    constructor (cardData: seq<Card>)
      requires |cardData| >= 1
      ensures Valid() && cards == cardData
      ensures cardWidth == 0.0 && x == 0.0 && controls == Stopped
    {
      cards := cardData;
      slides := Tripled(cardData);
      cardWidth := 0.0;
      x := 0.0;
      controls := Stopped;
    }

    /** Wraps the offset into (-2 cycle, 0) and starts the endless loop one
        cycle to the left of it. */
    method ResumeAnimation()
      requires Valid() && cardWidth > 0.0
      modifies this`x, this`controls
      ensures Valid()
      ensures x == Normalize(old(x), Cycle())
      ensures -2.0 * Cycle() < x < 0.0 && SameModulo(old(x), x, Cycle())
      ensures controls == Running(x - Cycle(), LoopTransition)
    {
      var cycle := |cards| as real * cardWidth;
      var currentX := x;
      var normalizedX := JsRem(currentX + cycle, cycle) - cycle;
      assert cycle == Cycle();
      assert normalizedX == Normalize(currentX, cycle);
      x := normalizedX;
      controls := Running(normalizedX - cycle, Transition(LoopDuration, Linear, true, Loop));
    }

    /** The layout effect: once the slider element is attached, a card is a
        quarter of its width, the offset is placed at the start of the middle
        copy and the loop starts from there. */
    method Setup(sliderWidth: Option<real>)
      requires Valid()
      requires sliderWidth.Some? ==> sliderWidth.value > 0.0
      modifies this
      ensures Valid()
      ensures sliderWidth.None? ==> cardWidth == old(cardWidth) && x == old(x) && controls == old(controls)
      ensures sliderWidth.Some? ==> cardWidth == sliderWidth.value / VisibleCards
      ensures sliderWidth.Some? ==> x == -Cycle() && controls == Running(-2.0 * Cycle(), LoopTransition)
    {
      if sliderWidth.Some? {
        var width := sliderWidth.value / VisibleCards;
        cardWidth := width;
        x := -(|cards| as real) * width;
        ResumeAnimation();
      }
    }

    /** The release handler proper: snap to the nearest group of four cards,
        then move the snap point back into the middle band. */
    method HandleDragEnd()
      requires Valid()
      modifies this`x
      ensures Valid()
      ensures x == DragEndX(old(x), cardWidth, |cards|, SnapGroup)
      ensures cardWidth == 0.0 ==> x == old(x)
    {
      var currentX := x;
      if cardWidth == 0.0 {
        return;
      }
      var snapStep := cardWidth * SnapGroup as real;
      var snapPoint := Round(currentX / snapStep) as real * snapStep;
      var cycle := |cards| as real * cardWidth;
      assert snapStep == SnapGroup as real * cardWidth;
      assert snapPoint == SnapPoint(currentX, snapStep);
      assert DragEndX(currentX, cardWidth, |cards|, SnapGroup) == Recenter(snapPoint, cycle);
      var minX := -2.0 * cycle;
      var maxX := -cycle;
      if snapPoint > maxX {
        x := minX + (snapPoint - maxX);
      } else if snapPoint < minX {
        x := maxX - (minX - snapPoint);
      } else {
        x := snapPoint;
      }
    }

    /** Grabbing the strip stops the loop where it is. */
    method DragStart()
      requires Valid()
      modifies this`controls
      ensures Valid()
      ensures controls == Stopped
    {
      controls := Stopped;
    }

    /** Dragging moves the strip freely, with no bounds and no wrapping. */
    method DragMove(delta: real)
      requires Valid()
      modifies this`x
      ensures Valid()
      ensures x == old(x) + delta
    {
      x := x + delta;
    }

    /** Letting go: snap and re-centre, then wrap and restart the loop.  The
        strip ends strictly between -2 cycle and 0, on a snap point moved by
        whole cycles, with the loop running from there. */
    method DragEnd()
      requires Valid() && cardWidth > 0.0
      modifies this`x, this`controls
      ensures Valid()
      ensures x == Normalize(DragEndX(old(x), cardWidth, |cards|, SnapGroup), Cycle())
      ensures -2.0 * Cycle() < x < 0.0
      ensures controls == Running(x - Cycle(), LoopTransition)
    {
      HandleDragEnd();
      ResumeAnimation();
    }
  }

  /** The worked example through the component: six cards in an 800-pixel
      slider, dragged by -50 and released, come to rest at -1600. */
  method DragScenario()
  {
    var carousel := new FeaturesCarousel(FeatureCards);
    carousel.Setup(Some(800.0));
    assert carousel.cardWidth == 200.0 && carousel.x == -1200.0;
    carousel.DragStart();
    carousel.DragMove(-50.0);
    assert carousel.x == -1250.0;
    assert carousel.Valid() && carousel.cardWidth == 200.0;
    assert |carousel.cards| == 6 && carousel.Cycle() == 1200.0;
    carousel.DragEnd();
    DragEndWorkedExample();
    assert carousel.x == Normalize(DragEndX(-1250.0, 200.0, 6, SnapGroup), 1200.0);
    assert carousel.x == -1600.0;
    assert carousel.controls == Running(-2800.0, LoopTransition);
  }
}
