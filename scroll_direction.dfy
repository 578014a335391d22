/**
 * The scroll-direction tracker that every section component repeats
 * (`handleScroll` in src/components/Contact.tsx, and identical copies in
 * About, Experience, Achievements and Projects), and the transition duration
 * each section derives from the direction.
 */
module ScrollDirection {

  datatype Direction = Up | Down

  /** Strictly greater is 'down'; equal or smaller is 'up'. */
  function NextDirection(last: real, current: real): (d: Direction)
    ensures d == Down <==> current > last
  {
    if current > last then Down else Up
  }

  /** The `transition` of a section: 0.8 s while scrolling down, 0 s otherwise. */
  function TransitionDuration(d: Direction): (seconds: real)
    ensures seconds > 0.0 <==> d == Down
    ensures d == Down ==> seconds == 0.8
    ensures d == Up ==> seconds == 0.0
  {
    match d
    case Down => 0.8
    case Up => 0.0
  }

  /** The tracker's state: the `scrollDirection` state and the `lastScrollY` ref. */
  datatype Tracker = Tracker(direction: Direction, lastScrollY: real)

  const InitialTracker := Tracker(Down, 0.0)

  /** One scroll event at position `current`. */
  function Scrolled(t: Tracker, current: real): (u: Tracker)
    ensures u.lastScrollY == current
    ensures u.direction == Down <==> current > t.lastScrollY
  {
    Tracker(NextDirection(t.lastScrollY, current), current)
  }

  /** A sequence of scroll events, in order. */
  function Replay(t: Tracker, ys: seq<real>): Tracker
    decreases |ys|
  {
    if ys == [] then t else Replay(Scrolled(t, ys[0]), ys[1..])
  }

  /** After any non-empty run of scroll events, only the last two positions
      matter: `lastScrollY` is the last one and the direction compares it with
      the one before (the starting `lastScrollY` for a single event). */
  lemma {:induction false} ReplayLastTwo(t: Tracker, ys: seq<real>)
    requires |ys| > 0
    ensures Replay(t, ys).lastScrollY == ys[|ys| - 1]
    ensures Replay(t, ys).direction ==
      NextDirection(if |ys| == 1 then t.lastScrollY else ys[|ys| - 2], ys[|ys| - 1])
    decreases |ys|
  {
    if |ys| > 1 {
      ReplayLastTwo(Scrolled(t, ys[0]), ys[1..]);
    }
  }

  /** A run of scroll events leaves the sections animating exactly when its last
      event moved further down the page than the one before. */
  lemma ReplayDuration(ys: seq<real>)
    requires |ys| > 1
    ensures TransitionDuration(Replay(InitialTracker, ys).direction) == 0.8
            <==> ys[|ys| - 1] > ys[|ys| - 2]
  {
    ReplayLastTwo(InitialTracker, ys);
  }

  class DirectionTracker {
    var direction: Direction
    var lastScrollY: real

    function State(): Tracker
      reads this
    {
      Tracker(direction, lastScrollY)
    }

    /** The direction starts as 'down' and the ref at 0. */
    constructor ()
      ensures State() == InitialTracker
    {
      direction := Down;
      lastScrollY := 0.0;
    }

    /** `handleScroll` with `window.scrollY == current`. */
    method HandleScroll(current: real)
      modifies this
      ensures State() == Scrolled(old(State()), current)
      ensures lastScrollY == current
      ensures direction == Down <==> current > old(lastScrollY)
    {
      if current > lastScrollY {
        direction := Down;
      } else {
        direction := Up;
      }
      lastScrollY := current;
    }
  }
}
