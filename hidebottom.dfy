/**
 * `HideBottomViewOnScrollBehavior`: a behavior that slides its child (a bottom
 * bar) off the bottom edge when the content scrolls down and back when it
 * scrolls up. It is a two-state machine, SCROLLED_UP and SCROLLED_DOWN.
 *
 * The behavior object and the child view are classes whose fields the methods
 * update. `Snap` reads the observable state of both into a value, and each
 * state-changing method is specified by a function of that value (`SlideTo`,
 * `WithHiddenOffset`) whose properties the lemmas prove. Listener callbacks and
 * animator cancellations are recorded, in the order they happen, in one
 * `events` trace.
 */
module HideBottom {
  import opened Common

  /** `STATE_SCROLLED_DOWN` and `STATE_SCROLLED_UP`. */
  const ScrolledDown := 1
  const ScrolledUp := 2

  /** `DEFAULT_ENTER_ANIMATION_DURATION_MS` and `DEFAULT_EXIT_ANIMATION_DURATION_MS`. */
  const EnterDuration := 225
  const ExitDuration := 175

  /** `ViewCompat.SCROLL_AXIS_HORIZONTAL` and `SCROLL_AXIS_VERTICAL`. */
  const ScrollAxisHorizontal := 1
  const ScrollAxisVertical := 2

  /** The identity of a registered `OnScrollStateChangedListener`. */
  type ListenerId = int

  /**
   * Something the behavior does that the outside can observe: a running
   * animator cancelled, or one `onStateChanged(child, state)` call made on a
   * listener.
   */
  datatype Event =
    | Cancelled(animation: Animation)
    | StateChanged(listener: ListenerId, state: int)

  /**
   * A `translationY` animator as `animateChildTo` starts it: from 0 to `to`, for
   * `duration` milliseconds, with the enter (linear-out-slow-in) or exit
   * (fast-out-linear-in) interpolator.
   */
  datatype Animation = Animation(from: int, to: int, duration: int, enter: bool)

  /** What the behavior and its child show to the outside. */
  datatype Snapshot = Snapshot(
    state: int,
    height: int,
    hiddenOffset: int,
    enterDuration: int,
    exitDuration: int,
    animator: Option<Animation>,
    events: seq<Event>,
    translationY: int)

  /** The calls `updateCurrentState` makes: each listener, in order, told `state`. */
  function Notices(listeners: seq<ListenerId>, state: int): (r: seq<Event>)
    ensures |r| == |listeners|
    ensures forall i :: 0 <= i < |listeners| ==> r[i] == StateChanged(listeners[i], state)
  {
    if listeners == [] then [] else [StateChanged(listeners[0], state)] + Notices(listeners[1..], state)
  }

  /** With distinct listeners, each is told exactly once. */
  lemma NoticesOncePerListener(listeners: seq<ListenerId>, state: int, l: ListenerId)
    requires Distinct(listeners)
    ensures |set i | 0 <= i < |listeners| && Notices(listeners, state)[i].listener == l| ==
            (if l in listeners then 1 else 0)
  {
    var r := Notices(listeners, state);
    var hits := set i | 0 <= i < |listeners| && r[i].listener == l;
    assert forall i :: 0 <= i < |listeners| ==> (i in hits <==> listeners[i] == l);
    if l in listeners {
      var k :| 0 <= k < |listeners| && listeners[k] == l;
      assert forall i :: i in hits ==> i == k;
      assert hits == {k};
    } else {
      assert hits == {};
    }
  }

  /** The cancellation `cancelAnimator` records: one event when an animator is running. */
  function Cancellation(animator: Option<Animation>): (r: seq<Event>)
    ensures animator.None? <==> r == []
    ensures animator.Some? ==> r == [Cancelled(animator.value)]
  {
    if animator.Some? then [Cancelled(animator.value)] else []
  }

  /** Where the child comes to rest in `state`: at 0 when up, below the edge when down. */
  function RestingY(state: int, height: int, hiddenOffset: int): int {
    if state == ScrolledUp then 0 else height + hiddenOffset
  }

  /**
   * `slideUp(child, animate)` (`target` SCROLLED_UP) and `slideDown(child,
   * animate)` (`target` SCROLLED_DOWN): nothing happens when already in
   * `target`; otherwise a running animator is cancelled, the state changes, every
   * listener is told, and the child either starts animating towards its resting
   * place or is put there at once.
   */
  function SlideTo(s: Snapshot, listeners: seq<ListenerId>, target: int, animate: bool): (r: Snapshot)
    ensures s.state == target ==> r == s
    ensures r.state == target
    ensures r.height == s.height && r.hiddenOffset == s.hiddenOffset
    ensures s.state != target ==>
      && r.events == s.events + Cancellation(s.animator) + Notices(listeners, target)
      && (animate ==> r.translationY == s.translationY &&
                      r.animator == Some(Animation(0, RestingY(target, s.height, s.hiddenOffset),
                                                   if target == ScrolledUp then s.enterDuration else s.exitDuration,
                                                   target == ScrolledUp)))
      && (!animate ==> r.translationY == RestingY(target, s.height, s.hiddenOffset) && r.animator.None?)
  {
    if s.state == target then s
    else
      var y := RestingY(target, s.height, s.hiddenOffset);
      var s1 := s.(state := target, animator := None,
                   events := s.events + Cancellation(s.animator) + Notices(listeners, target));
      if animate then
        var d := if target == ScrolledUp then s.enterDuration else s.exitDuration;
        s1.(animator := Some(Animation(0, y, d, target == ScrolledUp)))
      else s1.(translationY := y)
  }

  /**
   * A confirmed slide cancels the running animator before any listener hears
   * of the new state: the cancellation comes first among the slide's events and
   * every later one is a state change to `target`.
   */
  lemma CancelBeforeNotices(s: Snapshot, listeners: seq<ListenerId>, target: int, animate: bool)
    requires s.state != target && s.animator.Some?
    ensures var r := SlideTo(s, listeners, target, animate);
      && |r.events| == |s.events| + 1 + |listeners|
      && r.events[|s.events|] == Cancelled(s.animator.value)
      && forall t :: |s.events| < t < |r.events| ==> r.events[t] == StateChanged(listeners[t - |s.events| - 1], target)
  {
    var r := SlideTo(s, listeners, target, animate);
    assert r.events == s.events + [Cancelled(s.animator.value)] + Notices(listeners, target);
  }

  /** Sliding is idempotent: a second slide to the same state changes nothing. */
  lemma SlideIdempotent(s: Snapshot, listeners: seq<ListenerId>, target: int, animate: bool, again: bool)
    ensures SlideTo(SlideTo(s, listeners, target, animate), listeners, target, again)
         == SlideTo(s, listeners, target, animate)
  {
  }

  /**
   * Down then up, without animation: the child is back at 0, in SCROLLED_UP,
   * and the listeners were told DOWN, all of them, then UP, all of them.
   */
  lemma {:induction false} DownThenUp(s: Snapshot, listeners: seq<ListenerId>)
    requires s.state == ScrolledUp && s.animator.None?
    ensures var r := SlideTo(SlideTo(s, listeners, ScrolledDown, false), listeners, ScrolledUp, false);
      && r.state == ScrolledUp && r.translationY == 0
      && r.events == s.events + Notices(listeners, ScrolledDown) + Notices(listeners, ScrolledUp)
  {
    var d := SlideTo(s, listeners, ScrolledDown, false);
    assert d.events == s.events + Notices(listeners, ScrolledDown);
    assert d.animator.None?;
  }

  /** `setAdditionalHiddenOffsetY`: the offset is stored; a hidden child moves to the new hidden place. */
  function WithHiddenOffset(s: Snapshot, offset: int): (r: Snapshot)
    ensures r.hiddenOffset == offset
    ensures r.state == ScrolledDown ==> r.translationY == RestingY(ScrolledDown, r.height, offset)
    ensures s.state != ScrolledDown ==> r == s.(hiddenOffset := offset)
  {
    if s.state == ScrolledDown then s.(hiddenOffset := offset, translationY := s.height + offset)
    else s.(hiddenOffset := offset)
  }

  /**
   * Whatever the state, setting the hidden offset and then hiding the child
   * without animation puts it at height + offset.
   */
  lemma OffsetThenHide(s: Snapshot, listeners: seq<ListenerId>, offset: int)
    ensures SlideTo(WithHiddenOffset(s, offset), listeners, ScrolledDown, false).translationY == s.height + offset
  {
  }

  /** The child view, as far as the behavior touches it. */
  class BottomView {
    var translationY: int
    const measuredHeight: int
    const bottomMargin: int

    constructor (measuredHeight0: int, bottomMargin0: int)
      ensures translationY == 0 && measuredHeight == measuredHeight0 && bottomMargin == bottomMargin0
    {
      translationY := 0;
      measuredHeight := measuredHeight0;
      bottomMargin := bottomMargin0;
    }
  }

  class HideBottomViewOnScrollBehavior {
    /** `onScrollStateChangedListeners`, a `LinkedHashSet`: distinct, in insertion order. */
    var listeners: seq<ListenerId>
    var enterAnimDuration: int
    var exitAnimDuration: int
    var height: int
    var currentState: int
    var additionalHiddenOffsetY: int
    var currentAnimator: Option<Animation>
    /** The cancellations and listener calls made so far, oldest first. */
    var events: seq<Event>

    ghost predicate Valid()
      reads this
    {
      (currentState == ScrolledDown || currentState == ScrolledUp) && Distinct(listeners)
    }

    function Snap(child: BottomView): Snapshot
      reads this, child
    {
      Snapshot(currentState, height, additionalHiddenOffsetY, enterAnimDuration, exitAnimDuration,
               currentAnimator, events, child.translationY)
    }

    /** A new behavior starts SCROLLED_UP, with nothing measured, running or told. */
    constructor (listeners0: seq<ListenerId>)
      requires Distinct(listeners0)
      ensures Valid() && listeners == listeners0
      ensures currentState == ScrolledUp && height == 0 && additionalHiddenOffsetY == 0
      ensures enterAnimDuration == 0 && exitAnimDuration == 0
      ensures currentAnimator.None? && events == []
    {
      listeners := listeners0;
      enterAnimDuration := 0;
      exitAnimDuration := 0;
      height := 0;
      currentState := ScrolledUp;
      additionalHiddenOffsetY := 0;
      currentAnimator := None;
      events := [];
    }

    /**
     * `onLayoutChild`: remembers how far the child must move to hide (its
     * measured height and bottom margin) and the animation durations, and
     * returns false so that the engine lays the child out itself.
     */
    method OnLayoutChild(child: BottomView) returns (handled: bool)
      modifies this`height, this`enterAnimDuration, this`exitAnimDuration
      ensures height == child.measuredHeight + child.bottomMargin
      ensures enterAnimDuration == EnterDuration && exitAnimDuration == ExitDuration
      ensures !handled
    {
      height := child.measuredHeight + child.bottomMargin;
      enterAnimDuration := EnterDuration;
      exitAnimDuration := ExitDuration;
      handled := false;
    }

    /** `setAdditionalHiddenOffsetY`. */
    method SetAdditionalHiddenOffsetY(child: BottomView, offset: int)
      modifies this`additionalHiddenOffsetY, child`translationY
      ensures Snap(child) == WithHiddenOffset(old(Snap(child)), offset)
    {
      additionalHiddenOffsetY := offset;
      if currentState == ScrolledDown {
        child.translationY := height + additionalHiddenOffsetY;
      }
    }

    /** `onStartNestedScroll`: only a purely vertical nested scroll is accepted. */
    function OnStartNestedScroll(nestedScrollAxes: int): (r: bool)
      ensures r ==> nestedScrollAxes != ScrollAxisHorizontal
      ensures nestedScrollAxes == ScrollAxisHorizontal + ScrollAxisVertical ==> !r
      ensures r <==> nestedScrollAxes == ScrollAxisVertical
    {
      nestedScrollAxes == ScrollAxisVertical
    }

    /**
     * `onNestedScroll`: content scrolled down (`dyConsumed > 0`) hides the child
     * with animation, content scrolled up shows it again, no vertical movement
     * changes nothing.
     */
    method OnNestedScroll(child: BottomView, dyConsumed: int)
      requires Valid()
      modifies this, child`translationY
      ensures Valid() && listeners == old(listeners)
      ensures dyConsumed > 0 ==> Snap(child) == SlideTo(old(Snap(child)), listeners, ScrolledDown, true)
      ensures dyConsumed < 0 ==> Snap(child) == SlideTo(old(Snap(child)), listeners, ScrolledUp, true)
      ensures dyConsumed == 0 ==> Snap(child) == old(Snap(child))
    {
      if dyConsumed > 0 {
        SlideDown(child);
      } else if dyConsumed < 0 {
        SlideUp(child);
      }
    }

    /** `isScrolledUp`. */
    function IsScrolledUp(): (r: bool)
      reads this`currentState
      ensures r <==> currentState == ScrolledUp
    {
      currentState == ScrolledUp
    }

    /** `isScrolledDown`. */
    function IsScrolledDown(): (r: bool)
      reads this`currentState
      ensures r <==> currentState == ScrolledDown
    {
      currentState == ScrolledDown
    }

    /** Exactly one of the two states holds. */
    lemma ExactlyOneState()
      requires Valid()
      ensures IsScrolledUp() != IsScrolledDown()
    {
    }

    /** `slideUp(child)`: slide up with animation. */
    method SlideUp(child: BottomView)
      requires Valid()
      modifies this, child`translationY
      ensures Valid() && listeners == old(listeners)
      ensures Snap(child) == SlideTo(old(Snap(child)), listeners, ScrolledUp, true)
    {
      SlideUpWith(child, true);
    }

    /** `slideUp(child, animate)`. */
    method SlideUpWith(child: BottomView, animate: bool)
      requires Valid()
      modifies this, child`translationY
      ensures Valid() && listeners == old(listeners)
      ensures Snap(child) == SlideTo(old(Snap(child)), listeners, ScrolledUp, animate)
    {
      if IsScrolledUp() {
        return;
      }
      CancelAnimator();
      UpdateCurrentState(child, ScrolledUp);
      var targetTranslationY := 0;
      if animate {
        AnimateChildTo(child, targetTranslationY, enterAnimDuration, true);
      } else {
        child.translationY := targetTranslationY;
      }
    }

    /** `slideDown(child)`: slide down with animation. */
    method SlideDown(child: BottomView)
      requires Valid()
      modifies this, child`translationY
      ensures Valid() && listeners == old(listeners)
      ensures Snap(child) == SlideTo(old(Snap(child)), listeners, ScrolledDown, true)
    {
      SlideDownWith(child, true);
    }

    /** `slideDown(child, animate)`. */
    method SlideDownWith(child: BottomView, animate: bool)
      requires Valid()
      modifies this, child`translationY
      ensures Valid() && listeners == old(listeners)
      ensures Snap(child) == SlideTo(old(Snap(child)), listeners, ScrolledDown, animate)
    {
      if IsScrolledDown() {
        return;
      }
      CancelAnimator();
      UpdateCurrentState(child, ScrolledDown);
      var targetTranslationY := height + additionalHiddenOffsetY;
      if animate {
        AnimateChildTo(child, targetTranslationY, exitAnimDuration, false);
      } else {
        child.translationY := targetTranslationY;
      }
    }

    /**
     * `currentAnimator.cancel()` when one is running. Cancelling ends the
     * animation, and the end listener clears `currentAnimator`.
     */
    method CancelAnimator()
      modifies this`currentAnimator, this`events
      ensures currentAnimator.None?
      ensures events == old(events) + Cancellation(old(currentAnimator))
    {
      if currentAnimator.Some? {
        events := events + [Cancelled(currentAnimator.value)];
        currentAnimator := None;
      }
    }

    /** `updateCurrentState`: the new state, then every listener told of it, in order. */
    method UpdateCurrentState(child: BottomView, state: int)
      modifies this`currentState, this`events
      ensures currentState == state
      ensures events == old(events) + Notices(listeners, state)
    {
      currentState := state;
      var i := 0;
      while i < |listeners|
        invariant 0 <= i <= |listeners|
        invariant currentState == state
        invariant events == old(events) + Notices(listeners[..i], state)
      {
        assert Notices(listeners[..i + 1], state) == Notices(listeners[..i], state) + [StateChanged(listeners[i], state)];
        events := events + [StateChanged(listeners[i], currentState)];
        i := i + 1;
      }
      assert listeners[..i] == listeners;
    }

    /** `animateChildTo`: a new animator of the child's translation, from 0 to `targetY`. */
    method AnimateChildTo(child: BottomView, targetY: int, duration: int, enter: bool)
      modifies this`currentAnimator
      ensures currentAnimator == Some(Animation(0, targetY, duration, enter))
    {
      currentAnimator := Some(Animation(0, targetY, duration, enter));
    }
  }
}
