/**
 * The navbar scroll effect: on every scroll event the navbar gets a
 * background tier from the scroll offset and is hidden or docked according
 * to the direction of scrolling, and the offset is remembered for the next
 * event. Offsets are only compared, so they are integers here.
 */
module Navbar {

  /** Past this offset the background is the denser, more blurred one. */
  const DenseThreshold := 100
  /** Past this offset, scrolling down hides the navbar. */
  const HideThreshold := 200

  /** The inline background and backdrop filter; Stylesheet until the first event sets one. */
  datatype Background = StylesheetBackground | Translucent | Dense

  /** The inline transform: docked in place or slid up out of view. */
  datatype Placement = StylesheetPlacement | Docked | Hidden

  /** One scroll event: the new offset, and whether the page has a navbar at that moment. */
  datatype ScrollEvent = ScrollEvent(scrollY: int, navbarPresent: bool)

  datatype NavbarState = NavbarState(lastScrollY: int, background: Background, placement: Placement)

  function BackgroundFor(scrollY: int): Background {
    if scrollY > DenseThreshold then Dense else Translucent
  }

  function PlacementFor(lastScrollY: int, scrollY: int): Placement {
    if scrollY > lastScrollY && scrollY > HideThreshold then Hidden else Docked
  }

  /** The effect of one event; with no navbar the handler returns before touching anything. */
  function Step(s: NavbarState, e: ScrollEvent): NavbarState {
    if !e.navbarPresent then s
    else NavbarState(e.scrollY, BackgroundFor(e.scrollY), PlacementFor(s.lastScrollY, e.scrollY))
  }

  /** The effect of a sequence of events, in order. */
  function Run(s: NavbarState, events: seq<ScrollEvent>): NavbarState
    decreases |events|
  {
    if events == [] then s else Run(Step(s, events[0]), events[1..])
  }

  /** The events at which a navbar was present. */
  function Present(events: seq<ScrollEvent>): (r: seq<ScrollEvent>)
    ensures |r| <= |events|
    ensures forall i | 0 <= i < |r| :: r[i].navbarPresent && r[i] in events
    ensures forall e | e in events && e.navbarPresent :: e in r
  {
    if events == [] then []
    else if events[0].navbarPresent then [events[0]] + Present(events[1..])
    else Present(events[1..])
  }

  /** Present keeps the events that found a navbar in their order and number. */
  lemma {:induction false} PresentAppend(a: seq<ScrollEvent>, b: seq<ScrollEvent>)
    ensures Present(a + b) == Present(a) + Present(b)
    decreases |a|
  {
    if a == [] {
      assert a + b == b;
    } else {
      assert (a + b)[0] == a[0];
      assert (a + b)[1..] == a[1..] + b;
      PresentAppend(a[1..], b);
    }
  }

  /** On a single event, Present keeps it exactly when it found a navbar. */
  lemma PresentSingle(e: ScrollEvent)
    ensures Present([e]) == if e.navbarPresent then [e] else []
  {
    assert [e][1..] == [];
  }

  class NavbarEffect {
    var lastScrollY: int
    var background: Background
    var placement: Placement

    function State(): NavbarState
      reads this
    {
      NavbarState(lastScrollY, background, placement)
    }

    /** initNavbarScrollEffect: remember the offset at set-up time. */
    constructor (initialScrollY: int)
      ensures State() == NavbarState(initialScrollY, StylesheetBackground, StylesheetPlacement)
    {
      lastScrollY := initialScrollY;
      background := StylesheetBackground;
      placement := StylesheetPlacement;
    }

    /** The scroll listener. */
    method OnScroll(scrollY: int, navbarPresent: bool)
      modifies this
      ensures State() == Step(old(State()), ScrollEvent(scrollY, navbarPresent))
      ensures !navbarPresent ==> unchanged(this)
      ensures navbarPresent ==> lastScrollY == scrollY
      ensures navbarPresent ==> (background == Dense <==> scrollY > DenseThreshold)
      ensures navbarPresent ==> background != StylesheetBackground && placement != StylesheetPlacement
      ensures navbarPresent ==> (placement == Hidden <==> scrollY > old(lastScrollY) && scrollY > HideThreshold)
    {
      if !navbarPresent {
        return;
      }
      if scrollY > DenseThreshold {
        background := Dense;
      } else {
        background := Translucent;
      }
      if scrollY > lastScrollY && scrollY > HideThreshold {
        placement := Hidden;
      } else {
        placement := Docked;
      }
      lastScrollY := scrollY;
    }
  }

  /**
   * With a navbar present, the navbar ends up hidden exactly when the event
   * scrolls down and past the hiding threshold; any event that does not
   * scroll down, and any offset at or below the threshold, docks it.
   */
  lemma StepPlacement(s: NavbarState, e: ScrollEvent)
    requires e.navbarPresent
    ensures Step(s, e).placement == Hidden <==> e.scrollY > s.lastScrollY && e.scrollY > HideThreshold
    ensures Step(s, e).placement == Docked <==> e.scrollY <= s.lastScrollY || e.scrollY <= HideThreshold
    ensures Step(s, e).background == Dense <==> e.scrollY > DenseThreshold
    ensures Step(s, e).lastScrollY == e.scrollY
  {
  }

  lemma {:induction false} RunAppend(s: NavbarState, a: seq<ScrollEvent>, b: seq<ScrollEvent>)
    ensures Run(s, a + b) == Run(Run(s, a), b)
    decreases |a|
  {
    if a == [] {
      assert a + b == b;
    } else {
      assert (a + b)[0] == a[0];
      assert (a + b)[1..] == a[1..] + b;
      RunAppend(Step(s, a[0]), a[1..], b);
    }
  }

  /** Events that find no navbar leave no trace: only the others matter. */
  lemma {:induction false} AbsentEventsIgnored(s: NavbarState, events: seq<ScrollEvent>)
    ensures Run(s, events) == Run(s, Present(events))
    decreases |events|
  {
    if events != [] {
      AbsentEventsIgnored(Step(s, events[0]), events[1..]);
      if events[0].navbarPresent {
        var p := [events[0]] + Present(events[1..]);
        assert p[0] == events[0] && p[1..] == Present(events[1..]);
      }
    }
  }

  /**
   * After a run of events, the remembered offset and the background are those
   * of the last event that found the navbar, whatever came before it.
   */
  lemma {:induction false} RunRemembersLastPresent(s: NavbarState, events: seq<ScrollEvent>, k: nat)
    requires k < |events| && events[k].navbarPresent
    requires forall j | k < j < |events| :: !events[j].navbarPresent
    ensures Run(s, events).lastScrollY == events[k].scrollY
    ensures Run(s, events).background == BackgroundFor(events[k].scrollY)
  {
    var before := Run(s, events[..k]);
    assert events == events[..k] + ([events[k]] + events[k + 1..]);
    RunAppend(s, events[..k], [events[k]] + events[k + 1..]);
    RunAppend(before, [events[k]], events[k + 1..]);
    assert Run(before, [events[k]]) == Step(before, events[k]);
    AbsentEventsIgnored(Step(before, events[k]), events[k + 1..]);
    AllAbsent(events[k + 1..]);
  }

  lemma {:induction false} AllAbsent(events: seq<ScrollEvent>)
    requires forall j | 0 <= j < |events| :: !events[j].navbarPresent
    ensures Present(events) == []
  {
    if events != [] {
      AllAbsent(events[1..]);
    }
  }

  predicate StrictlyIncreasing(events: seq<ScrollEvent>) {
    forall i | 0 < i < |events| :: events[i - 1].scrollY < events[i].scrollY
  }

  /**
   * Scrolling steadily down with the navbar present hides it as soon as the
   * offset is past the hiding threshold.
   */
  lemma ScrollingDownPastThresholdHides(s: NavbarState, events: seq<ScrollEvent>)
    requires events != []
    requires forall i | 0 <= i < |events| :: events[i].navbarPresent
    requires s.lastScrollY < events[0].scrollY && StrictlyIncreasing(events)
    requires events[|events| - 1].scrollY > HideThreshold
    ensures Run(s, events).placement == Hidden
  {
    var n := |events|;
    var init := events[..n - 1];
    assert events == init + [events[n - 1]];
    RunAppend(s, init, [events[n - 1]]);
    var before := Run(s, init);
    if n > 1 {
      RunRemembersLastPresent(s, init, n - 2);
    }
    assert before.lastScrollY < events[n - 1].scrollY;
    assert Run(before, [events[n - 1]]) == Step(before, events[n - 1]);
  }
}
