/**
 * `useParallax` (src/hooks/useParallax.ts): the elements marked `.parallax`
 * are captured once when the hook attaches; every scroll or resize event
 * cancels the pending animation-frame request and schedules a new one, and the
 * frame pass moves each captured element vertically in proportion to its
 * distance from the viewport's centre. The frame scheduler is modelled by the
 * set of request ids it still holds; element rectangles and the viewport
 * height are inputs of the pass.
 */
module Parallax {
  import opened Wrappers

  /** The speed used when `data-speed` is absent or empty. */
  const DefaultSpeed: real := 0.15

  /** The `data-speed` attribute: absent, the empty string, or some other text
      whose `parseFloat` value is `parsed` (`None` when it is NaN). */
  datatype SpeedAttr = Absent | Empty | Text(parsed: Option<real>)

  /** `parseFloat(el.dataset.speed || "0.15")`; `None` stands for NaN. */
  function Speed(a: SpeedAttr): Option<real> {
    match a
    case Absent => Some(DefaultSpeed)
    case Empty => Some(DefaultSpeed)
    case Text(p) => p
  }

  /** The part of `getBoundingClientRect()` the pass reads. */
  datatype Rect = Rect(top: real, height: real)

  /** `-(top + height / 2 - viewportHeight / 2) * speed`. The offset is zero
      exactly when the speed is zero or the element is centred; with a positive
      speed an element whose centre is below the viewport's centre moves up
      (negative offset) and one above it moves down. */
  function TranslateY(r: Rect, viewportHeight: real, speed: real): (y: real)
    ensures y == 0.0 <==> speed == 0.0 || r.top + r.height / 2.0 == viewportHeight / 2.0
    ensures speed > 0.0 ==> (y < 0.0 <==> r.top + r.height / 2.0 > viewportHeight / 2.0)
    ensures speed > 0.0 ==> (y > 0.0 <==> r.top + r.height / 2.0 < viewportHeight / 2.0)
  {
    var offsetFromCenter := r.top + r.height / 2.0 - viewportHeight / 2.0;
    -offsetFromCenter * speed
  }

  /** The element's inline `transform`. */
  datatype Transform = NoTransform | TranslateYPx(px: real)

  /** The transform an element has after a pass. "translateY(NaNpx)" is not a
      valid transform, and an invalid value assigned to a style property is
      ignored, so a NaN speed leaves the transform as it was. */
  function PassTransform(current: Transform, a: SpeedAttr, r: Rect, viewportHeight: real): Transform {
    match Speed(a)
    case None => current
    case Some(s) => TranslateYPx(TranslateY(r, viewportHeight, s))
  }

  /** A missing or empty `data-speed` behaves as `data-speed="0.15"`. */
  lemma DefaultSpeedFallback(current: Transform, a: SpeedAttr, r: Rect, viewportHeight: real)
    requires a.Absent? || a.Empty?
    ensures PassTransform(current, a, r, viewportHeight) == PassTransform(current, Text(Some(0.15)), r, viewportHeight)
    ensures PassTransform(current, a, r, viewportHeight) == TranslateYPx(-(r.top + r.height / 2.0 - viewportHeight / 2.0) * 0.15)
  {
  }

  /** The state the one-pending-frame scheme works on: the `rafId` variable, the
      requests the host still holds for this hook, and the id the host hands out
      next (ids are positive, as `requestAnimationFrame`'s are). */
  datatype Frames = Frames(rafId: Option<nat>, scheduled: set<nat>, nextId: nat)

  /** `if (rafId)`: null and 0 are falsy. */
  predicate Truthy(id: Option<nat>) {
    id.Some? && id.value != 0
  }

  /** The requests `rafId` can name: nothing, or its own request. */
  function Named(id: Option<nat>): set<nat> {
    if id.Some? then {id.value} else {}
  }

  /** Every request still held is the one `rafId` names, and ids are positive
      and below the next one handed out. */
  predicate Coherent(f: Frames) {
    f.nextId > 0 && f.scheduled <= Named(f.rafId) && (f.rafId.Some? ==> 0 < f.rafId.value < f.nextId)
  }

  /** The state right after the host has enumerated the elements. */
  const Unscheduled := Frames(None, {}, 1)

  /** `if (rafId) cancelAnimationFrame(rafId)`. In a coherent state it drops
      every held request; `rafId` itself is not cleared. */
  function Cancel(f: Frames): (g: Frames)
    ensures g.rafId == f.rafId && g.nextId == f.nextId && g.scheduled <= f.scheduled
    ensures Coherent(f) ==> Coherent(g) && g.scheduled == {}
  {
    if Truthy(f.rafId) then f.(scheduled := f.scheduled - {f.rafId.value}) else f
  }

  /** `rafId = requestAnimationFrame(...)`: the host hands out a fresh id, holds
      it, and `rafId` names it. */
  function Request(f: Frames): (g: Frames)
    ensures g.rafId == Some(f.nextId) && g.nextId > f.nextId
    ensures g.scheduled == f.scheduled + {f.nextId}
    ensures Coherent(f) ==> f.nextId !in f.scheduled && |g.scheduled| == |f.scheduled| + 1
  {
    Frames(Some(f.nextId), f.scheduled + {f.nextId}, f.nextId + 1)
  }

  /** `onScroll`: cancel, then schedule exactly one request, which `rafId` names. */
  function OnScroll(f: Frames): (g: Frames)
    requires Coherent(f)
    ensures Coherent(g)
    ensures g.rafId == Some(f.nextId) && g.scheduled == {f.nextId}
  {
    Request(Cancel(f))
  }

  /** The host runs request `id`; `rafId` keeps naming it. */
  function Fire(f: Frames, id: nat): (g: Frames)
    requires Coherent(f)
    ensures Coherent(g) && g.rafId == f.rafId
    ensures g.scheduled == f.scheduled - {id}
  {
    f.(scheduled := f.scheduled - {id})
  }

  /** The cleanup's `if (rafId) cancelAnimationFrame(rafId)`: nothing stays pending. */
  function CleanupFrames(f: Frames): (g: Frames)
    requires Coherent(f)
    ensures Coherent(g) && g.scheduled == {}
  {
    Cancel(f)
  }

  /** What reaches the scheme: an event (scroll, resize or the first call at
      attach) or the host running a held request. */
  datatype FrameEvent = Event | RunFrame(id: nat)

  function Replay(f: Frames, events: seq<FrameEvent>): (g: Frames)
    requires Coherent(f)
    ensures Coherent(g)
    decreases |events|
  {
    if events == [] then f
    else
      var next := match events[0]
        case Event => OnScroll(f)
        case RunFrame(id) => Fire(f, id);
      Replay(next, events[1..])
  }

  /** At most one pass is ever pending, after any sequence of events and frames. */
  lemma AtMostOnePending(events: seq<FrameEvent>)
    ensures |Replay(Unscheduled, events).scheduled| <= 1
  {
    var g := Replay(Unscheduled, events);
    if g.rafId.Some? {
      assert g.scheduled <= {g.rafId.value};
      SubsetOfSingleton(g.scheduled, g.rafId.value);
    }
  }

  lemma SubsetOfSingleton(s: set<nat>, x: nat)
    requires s <= {x}
    ensures |s| <= 1
  {
    if s != {} {
      assert s == {x};
    }
  }

  /** A burst of events with no frame in between leaves exactly one pass
      pending, the one `rafId` names. */
  lemma {:induction false} BurstCoalesces(f: Frames, n: nat)
    requires Coherent(f) && n > 0
    ensures var g := Replay(f, seq(n, _ => Event));
      g.rafId.Some? && g.scheduled == {g.rafId.value}
    decreases n
  {
    var events := seq(n, _ => Event);
    assert events[0] == Event && events[1..] == seq(n - 1, _ => Event);
    if n > 1 {
      BurstCoalesces(OnScroll(f), n - 1);
    }
  }

  /** A tracked element: its `data-speed` attribute, which other code may
      change and which every pass reads afresh, and its inline transform, the
      only thing a pass writes. */
  class ParallaxElement {
    var speedAttr: SpeedAttr
    var transform: Transform

    constructor (speedAttr: SpeedAttr, transform: Transform)
      ensures this.speedAttr == speedAttr && this.transform == transform
    {
      this.speedAttr := speedAttr;
      this.transform := transform;
    }
  }

  /** One attachment of the hook. */
  class ParallaxEngine {
    /** The `.parallax` elements found at attach time, fixed from then on. */
    const elements: seq<ParallaxElement>
    var rafId: Option<nat>
    var scheduled: set<nat>
    var nextId: nat
    var scrollListener: bool
    var resizeListener: bool

    function State(): Frames
      reads this
    {
      Frames(rafId, scheduled, nextId)
    }

    /** The scheme is coherent, both listeners come and go together, and while
        they are absent (before an attach that found nothing, and after the
        cleanup) no request is pending. */
    ghost predicate Valid()
      reads this
    {
      Coherent(State()) && scrollListener == resizeListener &&
      (!scrollListener ==> scheduled == {}) &&
      (forall i, j :: 0 <= i < j < |elements| ==> elements[i] != elements[j])
    }

    /** The effect. With no `.parallax` element it returns before scheduling or
        listening; otherwise it runs `onScroll` once and registers both
        listeners. The elements are distinct nodes of the document. */
    constructor Attach(found: seq<ParallaxElement>)
      requires forall i, j :: 0 <= i < j < |found| ==> found[i] != found[j]
      ensures Valid() && elements == found
      ensures |found| == 0 ==> State() == Unscheduled && !scrollListener && !resizeListener
      ensures |found| > 0 ==> State() == OnScroll(Unscheduled) && scrollListener && resizeListener
    {
      elements := found;
      rafId, scheduled, nextId := None, {}, 1;
      scrollListener, resizeListener := false, false;
      new;
      if |found| == 0 {
        return;
      }
      Schedule();
      scrollListener := true;
      resizeListener := true;
    }

    /** The body of `onScroll`. It is a closure of the effect, so it runs only
        through a registered listener, or directly once at attach, before any
        request exists and only when an element was found. */
    method Schedule()
      requires Coherent(State()) && (scrollListener || (rafId.None? && |elements| > 0))
      modifies this`rafId, this`scheduled, this`nextId
      ensures State() == OnScroll(old(State()))
      ensures scheduled == {rafId.value}
    {
      if Truthy(rafId) {
        scheduled := scheduled - {rafId.value};
      }
      rafId := Some(nextId);
      scheduled := scheduled + {nextId};
      nextId := nextId + 1;
    }

    /** A scroll or resize event reaching the registered `onScroll`; events
        arrive only while the listeners are registered. */
    method HandleEvent()
      requires Valid() && scrollListener
      modifies this`rafId, this`scheduled, this`nextId
      ensures Valid() && State() == OnScroll(old(State()))
      ensures scheduled == {rafId.value}
    {
      Schedule();
    }

    /** The host runs pending request `id`: every captured element gets the
        transform of the formula, with its `data-speed`, its rectangle and the
        viewport height read now; nothing else of any element changes. */
    method RunPass(id: nat, viewportHeight: real, rects: seq<Rect>)
      requires Valid() && id in scheduled && |rects| == |elements|
      modifies this`scheduled, elements
      ensures Valid() && State() == Fire(old(State()), id)
      ensures forall k :: 0 <= k < |elements| ==>
        elements[k].speedAttr == old(elements[k].speedAttr) &&
        elements[k].transform == PassTransform(old(elements[k].transform), old(elements[k].speedAttr), rects[k], viewportHeight)
    {
      scheduled := scheduled - {id};
      for i := 0 to |elements|
        invariant Valid() && State() == Fire(old(State()), id)
        invariant forall k :: 0 <= k < |elements| ==> elements[k].speedAttr == old(elements[k].speedAttr)
        invariant forall k :: 0 <= k < i ==>
          elements[k].transform == PassTransform(old(elements[k].transform), old(elements[k].speedAttr), rects[k], viewportHeight)
        invariant forall k :: i <= k < |elements| ==> elements[k].transform == old(elements[k].transform)
      {
        var el := elements[i];
        el.transform := PassTransform(el.transform, el.speedAttr, rects[i], viewportHeight);
      }
    }

    /** The effect's cleanup: cancel the pending request and remove both
        listeners. After an attach that found no element there is no cleanup,
        and this changes nothing. No event reaches the engine afterwards, so by
        `Valid` nothing is pending from then on. */
    method Cleanup()
      requires Valid()
      modifies this`scheduled, this`scrollListener, this`resizeListener
      ensures Valid() && State() == CleanupFrames(old(State()))
      ensures scheduled == {} && !scrollListener && !resizeListener
    {
      if Truthy(rafId) {
        scheduled := scheduled - {rafId.value};
      }
      scrollListener := false;
      resizeListener := false;
    }
  }
}
