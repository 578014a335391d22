/**
 * `CustomCursor` (src/components/CustomCursor.tsx): a dot and a trailing ring
 * that follow the mouse. Its state is changed by the mouse handlers and by the
 * coarse-pointer check; what it renders is a pure function of that state.
 */
module Cursor {
  import opened Wrappers

  datatype Point = Point(x: real, y: real)

  /** The `mouseover` target as the handler inspects it: its tag name, whether
      `closest("a")` and `closest("button")` find an element, and its classes. */
  datatype Target = Target(tagName: string, closestAnchor: bool, closestButton: bool, classList: set<string>)

  /** The hover test of `handleMouseOver`. */
  predicate IsClickable(t: Target) {
    t.tagName == "A" || t.tagName == "BUTTON" || t.closestAnchor || t.closestButton || "clickable" in t.classList
  }

  datatype CursorState = CursorState(
    mousePosition: Point, isHovering: bool, isInViewport: bool, hasMouseMoved: bool, isMobile: bool)

  /** The `useState` initial values. */
  const InitialCursor := CursorState(Point(0.0, 0.0), false, true, false, false)

  /** What reaches the component: the four mouse events (delivered only while
      the mouse listeners are registered, that is, on a fine pointer) and a run
      of `checkMobile` with the result of the `(pointer: coarse)` query. */
  datatype CursorEvent =
    | MouseMove(clientX: real, clientY: real)
    | MouseOver(target: Target)
    | MouseEnter
    | MouseLeave
    | PointerCheck(coarse: bool)

  /** One handler or check. On a coarse pointer the mouse listeners are not
      registered, so mouse events change nothing; only the check sets
      `isMobile`; no event clears `hasMouseMoved`. */
  function Step(c: CursorState, e: CursorEvent): (d: CursorState)
    ensures c.isMobile && !e.PointerCheck? ==> d == c
    ensures d.isMobile == (if e.PointerCheck? then e.coarse else c.isMobile)
    ensures c.hasMouseMoved ==> d.hasMouseMoved
    ensures d.hasMouseMoved != c.hasMouseMoved ==> e.MouseMove? && !c.isMobile
  {
    match e
    case PointerCheck(coarse) => c.(isMobile := coarse)
    case MouseMove(x, y) => if c.isMobile then c else c.(mousePosition := Point(x, y), hasMouseMoved := true)
    case MouseOver(t) => if c.isMobile then c else c.(isHovering := IsClickable(t))
    case MouseEnter => if c.isMobile then c else c.(isInViewport := true)
    case MouseLeave => if c.isMobile then c else c.(isInViewport := false)
  }

  function Replay(c: CursorState, events: seq<CursorEvent>): CursorState
    decreases |events|
  {
    if events == [] then c else Replay(Step(c, events[0]), events[1..])
  }

  /** The state right after mounting: the initial values, then `checkMobile()`. */
  function Mounted(coarse: bool): (m: CursorState)
    ensures m.isMobile == coarse
    ensures !m.hasMouseMoved && !m.isHovering && m.isInViewport && m.mousePosition == Point(0.0, 0.0)
  {
    Step(InitialCursor, PointerCheck(coarse))
  }

  datatype Fill = Transparent | PrimaryColor

  /** The `animate` targets of the dot and of the ring. */
  datatype DotTarget = DotTarget(x: real, y: real, scale: real, opacity: real)
  datatype RingTarget = RingTarget(x: real, y: real, scale: real, backgroundColor: Fill, opacity: real)

  function Dot(c: CursorState): DotTarget {
    DotTarget(
      c.mousePosition.x - 6.0,
      c.mousePosition.y - 6.0,
      if c.isHovering then 0.0 else 1.0,
      if c.hasMouseMoved && c.isInViewport then 1.0 else 0.0)
  }

  function Ring(c: CursorState): RingTarget {
    RingTarget(
      c.mousePosition.x - 16.0,
      c.mousePosition.y - 16.0,
      if c.isHovering then 1.5 else 1.0,
      if c.isHovering then PrimaryColor else Transparent,
      if c.hasMouseMoved && c.isInViewport then (if c.isHovering then 0.2 else 1.0) else 0.0)
  }

  /** What the component returns: nothing on a coarse pointer, else both targets. */
  function Render(c: CursorState): (r: Option<(DotTarget, RingTarget)>)
    ensures r.None? <==> c.isMobile
    ensures r.Some? ==> r.value.0 == Dot(c) && r.value.1 == Ring(c)
  {
    if c.isMobile then None else Some((Dot(c), Ring(c)))
  }

  /** Both targets are hidden exactly when the mouse has not moved yet or the
      pointer is outside the document; while shown, hovering shrinks the dot to
      nothing, grows the ring by half, fills it and fades it to 0.2. */
  lemma TargetsOfState(c: CursorState)
    ensures Dot(c).opacity == 0.0 <==> !c.hasMouseMoved || !c.isInViewport
    ensures Ring(c).opacity == 0.0 <==> !c.hasMouseMoved || !c.isInViewport
    ensures c.isHovering ==> Dot(c).scale == 0.0 && Ring(c).scale == 1.5
    ensures !c.isHovering ==> Dot(c).scale == 1.0 && Ring(c).scale == 1.0
    ensures c.hasMouseMoved && c.isInViewport ==> Ring(c).opacity == (if c.isHovering then 0.2 else 1.0)
    ensures Ring(c).backgroundColor == PrimaryColor <==> c.isHovering
    ensures Dot(c).x + 6.0 == c.mousePosition.x == Ring(c).x + 16.0
    ensures Dot(c).y + 6.0 == c.mousePosition.y == Ring(c).y + 16.0
  {
  }

  /** `hasMouseMoved` is a latch: once set, no event clears it. */
  lemma {:induction false} MouseMovedLatches(c: CursorState, events: seq<CursorEvent>)
    requires c.hasMouseMoved
    ensures Replay(c, events).hasMouseMoved
    decreases |events|
  {
    if events != [] {
      MouseMovedLatches(Step(c, events[0]), events[1..]);
    }
  }

  /** Without a mousemove, the position and `hasMouseMoved` stay as they were. */
  lemma {:induction false} NoMoveKeepsPosition(c: CursorState, events: seq<CursorEvent>)
    requires forall k :: 0 <= k < |events| ==> !events[k].MouseMove?
    ensures Replay(c, events).mousePosition == c.mousePosition
    ensures Replay(c, events).hasMouseMoved == c.hasMouseMoved
    decreases |events|
  {
    if events != [] {
      NoMoveKeepsPosition(Step(c, events[0]), events[1..]);
    }
  }

  /** Until the first mousemove after mounting, both targets are invisible. */
  lemma {:induction false} HiddenUntilFirstMove(coarse: bool, events: seq<CursorEvent>)
    requires forall k :: 0 <= k < |events| ==> !events[k].MouseMove?
    ensures Dot(Replay(Mounted(coarse), events)).opacity == 0.0
    ensures Ring(Replay(Mounted(coarse), events)).opacity == 0.0
  {
    NoMoveKeepsPosition(Mounted(coarse), events);
  }

  /** After the pointer leaves the document, and until it enters again, both
      targets are invisible. */
  lemma {:induction false} HiddenAfterLeave(c: CursorState, events: seq<CursorEvent>)
    requires !c.isInViewport
    requires forall k :: 0 <= k < |events| ==> !events[k].MouseEnter?
    ensures !Replay(c, events).isInViewport
    ensures Dot(Replay(c, events)).opacity == 0.0 && Ring(Replay(c, events)).opacity == 0.0
    decreases |events|
  {
    if events != [] {
      HiddenAfterLeave(Step(c, events[0]), events[1..]);
    }
  }

  /** Once the mouse has moved, the targets sit at the last delivered
      mousemove's position, offset by 6 for the dot and 16 for the ring. */
  lemma TargetsFollowLastMove(c: CursorState, x: real, y: real, events: seq<CursorEvent>)
    requires !c.isMobile
    requires forall k :: 0 <= k < |events| ==> !events[k].MouseMove?
    ensures var d := Replay(c, [MouseMove(x, y)] + events);
      d.hasMouseMoved && Dot(d).x == x - 6.0 && Dot(d).y == y - 6.0 && Ring(d).x == x - 16.0 && Ring(d).y == y - 16.0
  {
    assert ([MouseMove(x, y)] + events)[1..] == events;
    NoMoveKeepsPosition(Step(c, MouseMove(x, y)), events);
  }

  /** mouseenter and mouseleave change `isInViewport` only. */
  lemma ViewportEventsChangeOnlyViewport(c: CursorState, e: CursorEvent)
    requires e.MouseEnter? || e.MouseLeave?
    ensures Step(c, e) == c.(isInViewport := if c.isMobile then c.isInViewport else e.MouseEnter?)
  {
  }

  /** A mouseover sets the hover flag to the outcome of the hover test and
      changes nothing else. */
  lemma MouseOverSetsHover(c: CursorState, t: Target)
    requires !c.isMobile
    ensures Step(c, MouseOver(t)) == c.(isHovering := IsClickable(t))
    ensures Step(c, MouseOver(t)).isHovering <==> IsClickable(t)
  {
  }

  /** The component instance. */
  class CustomCursor {
    var mousePosition: Point
    var isHovering: bool
    var isInViewport: bool
    var hasMouseMoved: bool
    var isMobile: bool
    /** The mousemove, mouseover, mouseenter and mouseleave listeners are registered. */
    var mouseListeners: bool

    /** The second effect keeps the mouse listeners registered exactly on a fine pointer. */
    ghost predicate Valid()
      reads this
    {
      mouseListeners == !isMobile
    }

    function State(): CursorState
      reads this
    {
      CursorState(mousePosition, isHovering, isInViewport, hasMouseMoved, isMobile)
    }

    /** Mounting: the initial state, then the first effect's `checkMobile()`
        and the second effect's registration (or early return). */
    constructor (coarse: bool)
      ensures Valid() && State() == Mounted(coarse)
    {
      mousePosition := Point(0.0, 0.0);
      isHovering := false;
      isInViewport := true;
      hasMouseMoved := false;
      isMobile := coarse;
      mouseListeners := !coarse;
    }

    /** `checkMobile` on a resize: set `isMobile`; the second effect then drops
        the mouse listeners on a coarse pointer and registers them otherwise. */
    method CheckMobile(coarse: bool)
      requires Valid()
      modifies this`isMobile, this`mouseListeners
      ensures Valid() && State() == Step(old(State()), PointerCheck(coarse))
    {
      isMobile := coarse;
      mouseListeners := !isMobile;
    }

    method UpdateMousePosition(clientX: real, clientY: real)
      requires Valid() && mouseListeners
      modifies this`mousePosition, this`hasMouseMoved
      ensures Valid() && State() == Step(old(State()), MouseMove(clientX, clientY))
    {
      mousePosition := Point(clientX, clientY);
      if !hasMouseMoved {
        hasMouseMoved := true;
      }
    }

    method HandleMouseOver(target: Target)
      requires Valid() && mouseListeners
      modifies this`isHovering
      ensures Valid() && State() == Step(old(State()), MouseOver(target))
    {
      if IsClickable(target) {
        isHovering := true;
      } else {
        isHovering := false;
      }
    }

    method HandleMouseEnter()
      requires Valid() && mouseListeners
      modifies this`isInViewport
      ensures Valid() && State() == Step(old(State()), MouseEnter)
    {
      isInViewport := true;
    }

    method HandleMouseLeave()
      requires Valid() && mouseListeners
      modifies this`isInViewport
      ensures Valid() && State() == Step(old(State()), MouseLeave)
    {
      isInViewport := false;
    }
  }
}
