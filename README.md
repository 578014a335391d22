# Portfolio site interaction logic, modelled in Dafny

The portfolio is a single-page site. Apart from markup, it has four small
pieces of client-side logic, and this project models each one and proves
what it promises:

- **Contact form** (`src/components/Contact.tsx`). `validate` performs three
  "required" checks on the trimmed name, email and message. It also tests the
  untrimmed email against `^\S+@\S+\.\S+$`. `handleSubmit` then either shows
  the errors or runs a simulated request, after which the form is reset and a
  thank-you banner is shown. The same file has the scroll-direction tracker
  that every section repeats, and the section transition duration that
  depends on the direction.
- **Reveal-on-down-scroll hook** (`src/hooks/useInViewOnDownScroll.ts`). The
  IntersectionObserver callback is a transition over `isInView`,
  `hasAnimated` and the `lastScrollY` ref.
- **Parallax hook** (`src/hooks/useParallax.ts`). Every event cancels the
  pending animation-frame request and schedules a new one. The frame pass
  sets each captured element's `translateY` from its distance to the
  viewport's centre.
- **Custom cursor** (`src/components/CustomCursor.tsx`). Mouse handlers and a
  coarse-pointer check update the component state. The dot and ring
  animation targets are pure functions of that state.

Each stateful entity is a `class` holding the source's fields, and its
methods change those fields in place. Where a pure transition function of the
old state exists (`Step`, `OnEntry`, `OnScroll`, `Scrolled`, `Fire`,
`CleanupFrames`), the method's `ensures` ties the new state to it. The other
methods (the contact form's handlers, the observer's attach and disconnect,
and the element transforms written by a parallax pass) state their new fields
directly. Lemmas about those functions over whole event
sequences (`Replay`) state the invariants, latches and coalescing. The
browser supplies scroll positions, intersection flags, rectangles, viewport
heights, pointer queries and event targets; here they are method parameters.
The frame scheduler is modelled as the set of request ids it still holds.
Timers are not modelled as time. The code after the simulated request's
`await`, and the banner-clearing timer callback, are separate methods.

Files: `wrappers.dfy` (Option), `contact_validation.dfy`,
`contact_form.dfy`, `scroll_direction.dfy`, `in_view_on_down_scroll.dfy`,
`parallax.dfy`, `custom_cursor.dfy`.

## Model

| member | source | states |
|---|---|---|
| ContactValidation.IsWhitespace | src/components/Contact.tsx:39-42 | the ECMAScript WhiteSpace and LineTerminator code points: the set `trim` removes and `\s` matches (definition; its uses are stated by the lemmas below) |
| ContactValidation.TrimStart | src/components/Contact.tsx:39-42 | the start half of `String.prototype.trim` (definition; `TrimStartSuffix` states what it returns) |
| ContactValidation.TrimEnd | src/components/Contact.tsx:39-42 | the end half of `String.prototype.trim` (definition; `TrimEndPrefix` states what it returns) |
| ContactValidation.Trim | src/components/Contact.tsx:39-42 | `String.prototype.trim` as both halves (definition; `TrimEmptyIffBlank` states when it is empty) |
| ContactValidation.MatchesEmailPattern | src/components/Contact.tsx:41 | what `/^\S+@\S+\.\S+$/.test(s)` means: `s` splits into three non-empty runs of non-white-space characters, separated by an '@' and then a '.' (definition; every email claim rests on it) |
| ContactValidation.EmailShapeOk | src/components/Contact.tsx:41 | the computable test used by `Validate`: no white space, a first '@' at index i >= 1, and a '.' at or after i+2 with at least one character after it; `EmailShapeOkIffPattern` proves it equals the regular expression |
| ContactValidation.TrimStartSuffix | src/components/Contact.tsx:39 | `trim`'s start-trimming: the result is the longest suffix that does not start with white space, and every character removed is white space |
| ContactValidation.TrimEndPrefix | src/components/Contact.tsx:39 | `trim`'s end-trimming: the result is the longest prefix that does not end with white space, and every character removed is white space |
| ContactValidation.TrimEmptyIffBlank | src/components/Contact.tsx:39-42 | `!s.trim()` holds exactly when every character of `s` is ECMAScript white space (the empty string included) |
| ContactValidation.EmailShapeOkMatches | src/components/Contact.tsx:41 | every string accepted by the direct test (no white space; '@' at some i >= 1; '.' at some j with i+2 <= j <= len-2) matches `^\S+@\S+\.\S+$`, read as three non-empty `\S` runs around '@' and '.' |
| ContactValidation.PatternPassesEmailShape | src/components/Contact.tsx:41 | every string matching the regular expression passes the direct test |
| ContactValidation.EmailShapeOkIffPattern | src/components/Contact.tsx:41 | the direct test and the regular expression accept exactly the same strings |
| ContactValidation.PaddedEmailRejected | src/components/Contact.tsx:41 | white space at either end of the email (which is checked untrimmed) makes the match fail |
| ContactValidation.ErrorCount | src/components/Contact.tsx:51 | `Object.keys(validation).length` is at most 3, and it is 0 exactly when the record has no entry |
| ContactValidation.Validate | src/components/Contact.tsx:37-44 | each entry depends only on its own field. "Name is required" / "Message is required" is reported exactly when that field is blank. A blank email gets "Email is required" and its format is not checked. Any other email gets "Enter a valid email" exactly when the untrimmed string does not match `^\S+@\S+\.\S+$` (`MatchesEmailPattern`); the body computes this with `EmailShapeOk` |
| ContactValidation.ValidateAcceptsExactly | src/components/Contact.tsx:37-43 | the error record is empty exactly when no field is blank and the email matches the regular expression |
| ContactValidation.EmptyFormAllRequired | src/components/Contact.tsx:9-13 | the initial (and reset) form yields all three "required" errors |
| ContactSubmit.ContactForm.constructor | src/components/Contact.tsx:9-17 | initial state: empty form, `{}` errors, not submitting, no banner |
| ContactSubmit.ContactForm.EditName | src/components/Contact.tsx:188-190 | the name `onChange` replaces the name and keeps the other fields |
| ContactSubmit.ContactForm.EditEmail | src/components/Contact.tsx:208-210 | the email `onChange` replaces the email and keeps the other fields |
| ContactSubmit.ContactForm.EditMessage | src/components/Contact.tsx:228-230 | the message `onChange` replaces the message and keeps the other fields |
| ContactSubmit.ContactForm.Submit | src/components/Contact.tsx:46-56 | `errors` becomes the validation of the form and the banner is cleared. The request starts (`isSubmitting` becomes true) exactly when validation passes; otherwise `isSubmitting` stays false. The form values are never changed. Submitting only happens while the button is enabled (`disabled={isSubmitting}`, line 239) |
| ContactSubmit.ContactForm.FinishRequest | src/components/Contact.tsx:57-68 | after the wait: banner "Thanks! Your message has been sent.", form reset to three empty strings, `errors` `{}`, `isSubmitting` false, one clearing timer scheduled. Validating the reset form again yields all three "required" errors |
| ContactSubmit.ContactForm.ClearSuccess | src/components/Contact.tsx:68 | a scheduled timer fires and clears the banner |
| ScrollDirection.NextDirection | src/components/Contact.tsx:25-29 | the direction is 'down' exactly when the current scroll is strictly greater than the last one; equal counts as 'up' |
| ScrollDirection.TransitionDuration | src/components/Contact.tsx:106 | the section transition lasts 0.8 s for 'down' and 0 s for 'up', so it is positive exactly when scrolling down |
| ScrollDirection.Scrolled | src/components/Contact.tsx:23-31 | one `handleScroll`: the ref becomes the current position and the direction is 'down' exactly when the position increased |
| ScrollDirection.ReplayLastTwo | src/components/Contact.tsx:22-31 | after any non-empty run of scroll events, `lastScrollY` is the last position and the direction compares it with the one before (with the starting ref for a single event) |
| ScrollDirection.ReplayDuration | src/components/Contact.tsx:121 | starting from 'down' with last = 0, after at least two events the sections animate (0.8 s) exactly when the last event moved further down than the previous one |
| ScrollDirection.DirectionTracker.constructor | src/components/Contact.tsx:19-20 | the tracker starts as 'down' with `lastScrollY` 0 |
| ScrollDirection.DirectionTracker.HandleScroll | src/components/Contact.tsx:23-31 | `lastScrollY` becomes the current scroll on every event; the direction is 'down' exactly when it increased |
| InViewOnDownScroll.OnEntry | src/hooks/useInViewOnDownScroll.ts:19-34 | the rules of one callback. `lastScrollY` is always set to the current scroll. An intersecting down-scroll while `hasAnimated` is false sets both flags, and that is the only way `hasAnimated` rises. A non-intersecting down-scroll resets both flags. Scrolling up or not moving leaves them unchanged. An intersecting callback after the reveal changes nothing. Flags that were equal stay equal |
| InViewOnDownScroll.ReplayKeepsFlagsEqual | src/hooks/useInViewOnDownScroll.ts:24-31 | starting from equal flags, any run of callbacks keeps `isInView == hasAnimated` |
| InViewOnDownScroll.FlagsEqualWhenReachable | src/hooks/useInViewOnDownScroll.ts:9-10 | both flags start false, so they are equal in every reachable state |
| InViewOnDownScroll.ReplayLastScrollY | src/hooks/useInViewOnDownScroll.ts:33 | after a non-empty run, the ref holds the last callback's scroll position |
| InViewOnDownScroll.NoDownScrollNoChange | src/hooks/useInViewOnDownScroll.ts:21 | a run in which the page never moves down leaves both flags as they were |
| InViewOnDownScroll.RevealHook.constructor | src/hooks/useInViewOnDownScroll.ts:7-12 | the threshold defaults to 0.3; both flags start false, the ref at 0, and there is no observer yet |
| InViewOnDownScroll.RevealHook.Attach | src/hooks/useInViewOnDownScroll.ts:14-18 | an observer is created exactly when an element is attached to the ref |
| InViewOnDownScroll.RevealHook.OnIntersection | src/hooks/useInViewOnDownScroll.ts:19-34 | the callback's in-place updates equal `OnEntry` of the old state and keep the flags equal |
| InViewOnDownScroll.RevealHook.Disconnect | src/hooks/useInViewOnDownScroll.ts:40-42 | the cleanup disconnects the observer |
| Parallax.Speed | src/hooks/useParallax.ts:19 | `parseFloat(el.dataset.speed \|\| "0.15")`, with `None` for NaN (definition; `DefaultSpeedFallback` states the fallback) |
| Parallax.PassTransform | src/hooks/useParallax.ts:18-23 | the transform an element has after a pass: the formula's `translateY` for a numeric speed, and the old transform for a NaN speed, since an invalid style value is ignored (definition; `RunPass` writes it) |
| Parallax.TranslateY | src/hooks/useParallax.ts:21-22 | the offset is zero exactly when the speed is zero or the element is centred. With a positive speed, an element whose centre is below the viewport's centre gets a negative offset, and one above it gets a positive offset |
| Parallax.DefaultSpeedFallback | src/hooks/useParallax.ts:19 | a missing or empty `data-speed` gives `-(top + height/2 - viewportHeight/2) * 0.15` |
| Parallax.Cancel | src/hooks/useParallax.ts:13 | `if (rafId) cancelAnimationFrame(rafId)`: `rafId` and the next id are kept, nothing is added, and in a coherent state no request remains held |
| Parallax.Request | src/hooks/useParallax.ts:14 | `rafId = requestAnimationFrame(...)`: a fresh id, not already held, is added to the held requests and `rafId` names it |
| Parallax.OnScroll | src/hooks/useParallax.ts:12-14 | `onScroll` cancels the held request and schedules one new request, which `rafId` names; after it, exactly that request is pending |
| Parallax.Fire | src/hooks/useParallax.ts:14 | running a request removes it from the pending set and leaves `rafId` naming it |
| Parallax.CleanupFrames | src/hooks/useParallax.ts:33 | the cleanup's cancel leaves no request pending |
| Parallax.Replay | src/hooks/useParallax.ts:12-24 | any sequence of events and frame runs keeps the scheme coherent: each request still held is the one `rafId` names |
| Parallax.AtMostOnePending | src/hooks/useParallax.ts:13-14 | from attach, at most one pass is pending after any sequence of events and frames |
| Parallax.BurstCoalesces | src/hooks/useParallax.ts:12-14 | a burst of events with no frame in between leaves exactly one pass pending |
| Parallax.ParallaxEngine.Attach | src/hooks/useParallax.ts:7-30 | with no `.parallax` element nothing is scheduled and no listener is registered. Otherwise one pass is scheduled at once and both the scroll and the resize listener are registered. The element list is fixed from then on |
| Parallax.ParallaxEngine.Schedule | src/hooks/useParallax.ts:12-14 | the body of `onScroll`, a closure of the effect: it runs only through a registered listener, or directly once at attach (line 28) when an element was found and no request exists yet. The in-place update equals `OnScroll` of the old state; exactly one request is pending afterwards |
| Parallax.ParallaxEngine.HandleEvent | src/hooks/useParallax.ts:29-30 | a scroll or resize event, delivered only while the listeners are registered, runs `onScroll` and keeps `Valid` |
| Parallax.ParallaxEngine.RunPass | src/hooks/useParallax.ts:14-24 | the `forEach` pass gives every captured element the formula's transform for its rectangle and its `data-speed` as read during this pass. A NaN speed leaves the transform as it was. Only `transform` is written |
| Parallax.ParallaxEngine.Cleanup | src/hooks/useParallax.ts:32-36 | the cleanup leaves no request pending and removes both listeners. `Valid` says nothing is pending while the listeners are absent, and only a registered listener can schedule, so nothing is pending from then on |
| Cursor.Step | src/components/CustomCursor.tsx:15-57 | one handler or `checkMobile`. On a coarse pointer mouse events change nothing, only the check sets `isMobile`, and `hasMouseMoved` changes only when a delivered mousemove sets it |
| Cursor.Mounted | src/components/CustomCursor.tsx:7-20 | after mounting: `isMobile` is the query's result, the mouse has not moved, nothing is hovered, the pointer counts as inside, and the position is (0, 0) |
| Cursor.Dot | src/components/CustomCursor.tsx:79-84 | the dot's `animate` targets (definition; `TargetsOfState` states them) |
| Cursor.Ring | src/components/CustomCursor.tsx:96-102 | the ring's `animate` targets (definition; `TargetsOfState` states them) |
| Cursor.Render | src/components/CustomCursor.tsx:72-111 | nothing is rendered exactly on a coarse pointer; otherwise the dot and ring targets are rendered |
| Cursor.TargetsOfState | src/components/CustomCursor.tsx:79-102 | both opacities are 0 exactly when the mouse has not moved or the pointer is outside the document. While hovering, the dot scale is 0 and the ring scale 1.5; otherwise both scales are 1. The visible ring opacity is 0.2 while hovering and 1 otherwise. The ring is filled with the primary colour exactly while hovering. The dot sits at (x-6, y-6) and the ring at (x-16, y-16) |
| Cursor.MouseMovedLatches | src/components/CustomCursor.tsx:31-33 | once `hasMouseMoved` is set, no event clears it |
| Cursor.NoMoveKeepsPosition | src/components/CustomCursor.tsx:29-34 | without a mousemove, the position and `hasMouseMoved` do not change |
| Cursor.HiddenUntilFirstMove | src/components/CustomCursor.tsx:10 | from mounting until the first mousemove, both targets have opacity 0 |
| Cursor.HiddenAfterLeave | src/components/CustomCursor.tsx:55-57 | after the pointer leaves the document and until it enters again, both targets have opacity 0 |
| Cursor.TargetsFollowLastMove | src/components/CustomCursor.tsx:30 | after a delivered mousemove to (x, y) and no later mousemove, the dot is at (x-6, y-6) and the ring at (x-16, y-16) |
| Cursor.ViewportEventsChangeOnlyViewport | src/components/CustomCursor.tsx:51-57 | mouseenter and mouseleave change only `isInViewport` |
| Cursor.MouseOverSetsHover | src/components/CustomCursor.tsx:36-49 | `isHovering` becomes true exactly when the target is an A or BUTTON, lies inside an `a` or `button`, or has the class `clickable`; nothing else changes |
| Cursor.CustomCursor.constructor | src/components/CustomCursor.tsx:7-24 | mounting gives the initial state, then the coarse-pointer check; mouse listeners are registered exactly on a fine pointer |
| Cursor.CustomCursor.CheckMobile | src/components/CustomCursor.tsx:15-18 | `isMobile` takes the query's result; the mouse listeners are then registered exactly when it is false |
| Cursor.CustomCursor.UpdateMousePosition | src/components/CustomCursor.tsx:29-34 | the position becomes the event's client coordinates and `hasMouseMoved` becomes true |
| Cursor.CustomCursor.HandleMouseOver | src/components/CustomCursor.tsx:36-49 | the in-place hover update equals `Step` of the old state |
| Cursor.CustomCursor.HandleMouseEnter | src/components/CustomCursor.tsx:51-53 | `isInViewport` becomes true; nothing else changes |
| Cursor.CustomCursor.HandleMouseLeave | src/components/CustomCursor.tsx:55-57 | `isInViewport` becomes false; nothing else changes |

## Left out

- Time. The 900 ms simulated request and the 4500 ms banner timer are not durations here. Their callbacks are `FinishRequest` and `ClearSuccess`, which may run whenever the model allows them.
- The `catch` branch of `handleSubmit` (src/components/Contact.tsx:63-64). It is unreachable, because the timeout promise never rejects.
- React mechanics: batching of state updates, re-renders, and effect re-runs on dependency changes. An example is the observer being re-created when `hasAnimated` changes (src/hooks/useInViewOnDownScroll.ts:43); another is the cursor listeners being re-registered when `hasMouseMoved` changes (src/components/CustomCursor.tsx:70). Each callback is assumed to see the current state.
- Host APIs are not modelled. `IntersectionObserver` geometry is not modelled, so the threshold only configures the observer. Likewise `getBoundingClientRect`, `matchMedia`, `querySelectorAll`, `closest` and the listener bookkeeping. Their results are parameters, and registered listeners are flags.
- `window.scrollY || window.pageYOffset` in the frame pass (src/hooks/useParallax.ts:15). It is read but never used.
- Floating point. All geometry is `real`. `parseFloat` is not modelled: a `data-speed` text is given by its parsed value, with `None` for NaN. A NaN speed makes the transform "translateY(NaNpx)", which is not valid CSS, so the assignment is ignored and the transform keeps its value. Infinities and rounding are not modelled.
- Strings are sequences of code points. The regular expression has no `u` flag and so works on UTF-16 code units. This makes no difference here, because no surrogate is white space.
- What the source does not contain. There is no canvas particle simulation: `Hero.tsx` holds only markup. Also left out are presentation (JSX, Tailwind classes, framer-motion springs), the staggered durations of the other sections' items, and Navbar's `scrollY > 50`. The scroll handlers in About, Experience, Achievements and Projects are identical to Contact's, so `ScrollDirection` covers them all. The call sites use `data-speed` "0.06" (Projects.tsx:85) and "0.04" (Experience.tsx:84); as `Text(Some(0.06))` and `Text(Some(0.04))` they go through the same formula.
- An unparsable `data-speed` (for example `"abc"`) yields NaN, not the default 0.15. The model follows the code here, not a fallback to the default.
- One page, two attachments. `useParallax` runs in both Experience (src/components/Experience.tsx:53) and Projects (src/components/Projects.tsx:56). Each attachment's `querySelectorAll(".parallax")` captures every such element in the document. A `ParallaxEngine` is one attachment, so `AtMostOnePending` and `BurstCoalesces` hold per attachment. The page as a whole can have two passes pending, and each element is written twice per frame.
- `getBoundingClientRect` includes the transform the previous pass wrote, so a rectangle given to `RunPass` is not independent of earlier passes. The model takes rectangles as inputs and does not relate them to the transforms.
- ContactSubmit.ContactForm.EditEmail: accepts any string. The email field is `<input type="email">` (src/components/Contact.tsx:205), and the browser sanitises its value before `onChange` reads it: newlines are stripped, and so is leading and trailing ASCII white space. So `validate` only ever sees other white space at the ends (VT, NBSP, U+3000 and the like). `PaddedEmailRejected` covers every string, which is more than the browser delivers.
