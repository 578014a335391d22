/**
 * `useInViewOnDownScroll` (src/hooks/useInViewOnDownScroll.ts): an element is
 * revealed when it enters the viewport while the page scrolls down, and reset
 * when it leaves the viewport while the page scrolls down. The observer
 * callback is a transition over (`isInView`, `hasAnimated`, `lastScrollY`)
 * driven by the entry's `isIntersecting` and the current `window.scrollY`.
 */
module InViewOnDownScroll {
  import opened Wrappers

  /** The threshold used when the caller passes none. */
  const DefaultThreshold: real := 0.3

  datatype Reveal = Reveal(isInView: bool, hasAnimated: bool, lastScrollY: real)

  /** Both flags start false and the scroll ref at 0. */
  const InitialReveal := Reveal(false, false, 0.0)

  /** One observer callback for an entry with `isIntersecting` seen at scroll
      position `current`. */
  function OnEntry(s: Reveal, isIntersecting: bool, current: real): (t: Reveal)
    ensures t.lastScrollY == current
    // the flags rise only on an intersecting down-scroll before any reveal
    ensures !s.hasAnimated && t.hasAnimated <==> isIntersecting && current > s.lastScrollY && !s.hasAnimated
    ensures isIntersecting && current > s.lastScrollY && !s.hasAnimated ==> t.isInView && t.hasAnimated
    // leaving the viewport while scrolling down resets both flags
    ensures !isIntersecting && current > s.lastScrollY ==> !t.isInView && !t.hasAnimated
    // scrolling up or standing still never changes the flags
    ensures current <= s.lastScrollY ==> t.isInView == s.isInView && t.hasAnimated == s.hasAnimated
    // a second intersecting down-scroll after the reveal changes nothing
    ensures isIntersecting && s.hasAnimated ==> t.isInView == s.isInView && t.hasAnimated == s.hasAnimated
    // whatever branch runs, the flags that agreed still agree
    ensures s.isInView == s.hasAnimated ==> t.isInView == t.hasAnimated
  {
    var isScrollingDown := current > s.lastScrollY;
    var flagged :=
      if isIntersecting && isScrollingDown && !s.hasAnimated then s.(isInView := true, hasAnimated := true)
      else if !isIntersecting && isScrollingDown then s.(hasAnimated := false, isInView := false)
      else s;
    flagged.(lastScrollY := current)
  }

  /** An observer entry: whether the element intersects and where the page is. */
  datatype Entry = Entry(isIntersecting: bool, scrollY: real)

  /** The callbacks of a run, in order. */
  function Replay(s: Reveal, entries: seq<Entry>): Reveal
    decreases |entries|
  {
    if entries == [] then s
    else Replay(OnEntry(s, entries[0].isIntersecting, entries[0].scrollY), entries[1..])
  }

  /** From any state whose flags agree, they agree after any run of callbacks. */
  lemma {:induction false} ReplayKeepsFlagsEqual(s: Reveal, entries: seq<Entry>)
    requires s.isInView == s.hasAnimated
    ensures Replay(s, entries).isInView == Replay(s, entries).hasAnimated
    decreases |entries|
  {
    if entries != [] {
      ReplayKeepsFlagsEqual(OnEntry(s, entries[0].isIntersecting, entries[0].scrollY), entries[1..]);
    }
  }

  /** `isInView` and `hasAnimated` are equal in every reachable state. */
  lemma FlagsEqualWhenReachable(entries: seq<Entry>)
    ensures Replay(InitialReveal, entries).isInView == Replay(InitialReveal, entries).hasAnimated
  {
    ReplayKeepsFlagsEqual(InitialReveal, entries);
  }

  /** After a non-empty run, the scroll ref holds the last entry's position. */
  lemma {:induction false} ReplayLastScrollY(s: Reveal, entries: seq<Entry>)
    requires entries != []
    ensures Replay(s, entries).lastScrollY == entries[|entries| - 1].scrollY
    decreases |entries|
  {
    if |entries| > 1 {
      ReplayLastScrollY(OnEntry(s, entries[0].isIntersecting, entries[0].scrollY), entries[1..]);
    }
  }

  /** A run in which the page never moves down leaves the flags as they were. */
  lemma {:induction false} NoDownScrollNoChange(s: Reveal, entries: seq<Entry>)
    requires entries != [] ==> entries[0].scrollY <= s.lastScrollY
    requires forall k :: 0 < k < |entries| ==> entries[k].scrollY <= entries[k - 1].scrollY
    ensures Replay(s, entries).isInView == s.isInView
    ensures Replay(s, entries).hasAnimated == s.hasAnimated
    decreases |entries|
  {
    if entries != [] {
      var t := OnEntry(s, entries[0].isIntersecting, entries[0].scrollY);
      assert forall k :: 0 < k < |entries[1..]| ==> entries[1..][k].scrollY <= entries[1..][k - 1].scrollY by {
        forall k | 0 < k < |entries[1..]| ensures entries[1..][k].scrollY <= entries[1..][k - 1].scrollY {
          assert entries[1..][k] == entries[k + 1];
        }
      }
      NoDownScrollNoChange(t, entries[1..]);
    }
  }

  /** The hook's state for one mounted element. */
  class RevealHook {
    const threshold: real
    var isInView: bool
    var hasAnimated: bool
    var lastScrollY: real
    /** An IntersectionObserver is observing the element. */
    var observing: bool

    ghost predicate Valid()
      reads this
    {
      isInView == hasAnimated
    }

    function State(): Reveal
      reads this
    {
      Reveal(isInView, hasAnimated, lastScrollY)
    }

    /** `useInViewOnDownScroll(options)`: the threshold defaults to 0.3. */
    constructor (threshold: Option<real>)
      ensures Valid() && State() == InitialReveal && !observing
      ensures this.threshold == threshold.GetOr(DefaultThreshold)
    {
      this.threshold := threshold.GetOr(DefaultThreshold);
      isInView, hasAnimated, lastScrollY := false, false, 0.0;
      observing := false;
    }

    /** The effect: with no element behind the ref, no observer is created. */
    method Attach(elementPresent: bool)
      modifies this`observing
      ensures observing == elementPresent
    {
      if !elementPresent {
        observing := false;
        return;
      }
      observing := true;
    }

    /** The observer callback; it runs only while an observer exists. */
    method OnIntersection(isIntersecting: bool, currentScrollY: real)
      requires Valid() && observing
      modifies this`isInView, this`hasAnimated, this`lastScrollY
      ensures Valid()
      ensures State() == OnEntry(old(State()), isIntersecting, currentScrollY)
    {
      var isScrollingDown := currentScrollY > lastScrollY;
      if isIntersecting && isScrollingDown && !hasAnimated {
        isInView := true;
        hasAnimated := true;
      } else if !isIntersecting && isScrollingDown {
        hasAnimated := false;
        isInView := false;
      }
      lastScrollY := currentScrollY;
    }

    /** The effect's cleanup: `observer.disconnect()`. */
    method Disconnect()
      modifies this`observing
      ensures !observing
    {
      observing := false;
    }
  }
}
